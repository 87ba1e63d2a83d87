/** Where a function body ends: the line on which the braces outside comments, strings and
    character literals first balance.

    The specification reads the text symbol by symbol and never looks ahead; the scanner looks one
    character ahead inside each line and keeps five flags.  Both take every line end as it stands.
    C removes a backslash at a line end together with the line end before it reads anything; the
    second half compares the two readings. */
module Scanner {

  datatype Symbol = Ch(c: char) | EndOfLine

  datatype Mode = Code | Slash | LineComment | BlockComment | Star
                | InString | StringEscape | InChar | CharEscape

  function NextMode(m: Mode, s: Symbol): Mode {
    match m
    case Code => if s.Ch? then InCode(s.c) else Code
    case Slash =>
      if s == Ch('/') then LineComment else if s == Ch('*') then BlockComment
      else if s.Ch? then InCode(s.c) else Code
    case LineComment => if s.EndOfLine? then Code else LineComment
    case BlockComment => if s == Ch('*') then Star else BlockComment
    case Star => if s == Ch('/') then Code else if s == Ch('*') then Star else BlockComment
    case InString => if s == Ch('\\') then StringEscape else if s == Ch('"') then Code else InString
    case StringEscape => if s.EndOfLine? then StringEscape else InString
    case InChar => if s == Ch('\\') then CharEscape else if s == Ch('\'') then Code else InChar
    case CharEscape => if s.EndOfLine? then CharEscape else InChar
  }

  function InCode(c: char): Mode {
    if c == '/' then Slash else if c == '"' then InString else if c == '\'' then InChar else Code
  }

  function ModeAfter(t: seq<Symbol>): Mode {
    if t == [] then Code else NextMode(ModeAfter(t[..|t| - 1]), t[|t| - 1])
  }

  /** The last symbol of `t` is `brace`, and it is code. */
  predicate EndsWithBrace(t: seq<Symbol>, brace: char) {
    t != [] && t[|t| - 1] == Ch(brace) && ModeAfter(t[..|t| - 1]) in {Code, Slash}
  }

  predicate Opened(t: seq<Symbol>) {
    t != [] && (EndsWithBrace(t, '{') || Opened(t[..|t| - 1]))
  }

  /** Brace depth, from the first open brace on. */
  function Depth(t: seq<Symbol>): int {
    if t == [] then 0
    else if EndsWithBrace(t, '{') then Depth(t[..|t| - 1]) + 1
    else if EndsWithBrace(t, '}') && Opened(t[..|t| - 1]) then Depth(t[..|t| - 1]) - 1
    else Depth(t[..|t| - 1])
  }

  /** The last symbol of `t` closes a body. */
  predicate Closes(t: seq<Symbol>) {
    EndsWithBrace(t, '}') && Opened(t[..|t| - 1]) && Depth(t) == 0
  }

  /** Some prefix of `t` closes a body. */
  predicate HasEnd(t: seq<Symbol>) {
    t != [] && (Closes(t) || HasEnd(t[..|t| - 1]))
  }

  lemma {:induction false} HasEndIff(t: seq<Symbol>)
    ensures HasEnd(t) <==> exists k: nat :: k <= |t| && Closes(t[..k])
  {
    if t == [] {
    } else {
      HasEndIff(t[..|t| - 1]);
      assert t[..|t|] == t;
      if k: nat :| k <= |t| && Closes(t[..k]) && k < |t| { assert t[..|t| - 1][..k] == t[..k]; }
      if HasEnd(t[..|t| - 1]) {
        var k: nat :| k < |t| && Closes(t[..|t| - 1][..k]);
        assert t[..|t| - 1][..k] == t[..k];
      }
    }
  }

  /** Before anything closes, the depth is positive once a brace is open and zero until then. */
  lemma {:induction false} DepthSign(t: seq<Symbol>)
    requires !HasEnd(t)
    ensures if Opened(t) then Depth(t) > 0 else Depth(t) == 0
  {
    if t != [] { DepthSign(t[..|t| - 1]); }
  }

  function Chars(line: string): (r: seq<Symbol>)
    ensures |r| == |line|
  {
    seq(|line|, i requires 0 <= i < |line| => Ch(line[i]))
  }

  /** The symbols of the lines, each line ended. */
  function Text(lines: seq<string>): seq<Symbol> {
    if lines == [] then []
    else Text(lines[..|lines| - 1]) + Chars(lines[|lines| - 1]) + [EndOfLine]
  }

  function LineBreaks(t: seq<Symbol>): nat {
    if t == [] then 0 else LineBreaks(t[..|t| - 1]) + (if t[|t| - 1] == EndOfLine then 1 else 0)
  }

  /** What matters of the text read so far. */
  datatype Progress = Progress(mode: Mode, depth: int, open: bool)

  function At(t: seq<Symbol>): Progress {
    Progress(ModeAfter(t), Depth(t), Opened(t))
  }

  function Next(p: Progress, s: Symbol): Progress {
    var brace := p.mode == Code || p.mode == Slash;
    Progress(NextMode(p.mode, s),
             if !brace then p.depth else if s == Ch('{') then p.depth + 1
             else if s == Ch('}') && p.open then p.depth - 1 else p.depth,
             p.open || (brace && s == Ch('{')))
  }

  predicate Completes(p: Progress, s: Symbol) {
    (p.mode == Code || p.mode == Slash) && s == Ch('}') && p.open && p.depth == 1
  }

  lemma Snoc(t: seq<Symbol>, s: Symbol)
    ensures (t + [s])[..|t|] == t
    ensures At(t + [s]) == Next(At(t), s)
    ensures Closes(t + [s]) == Completes(At(t), s)
    ensures HasEnd(t + [s]) == (Completes(At(t), s) || HasEnd(t))
    ensures LineBreaks(t + [s]) == LineBreaks(t) + (if s == EndOfLine then 1 else 0)
  {
    assert (t + [s])[..|t|] == t;
  }

  // ---- what the modes mean, token by token ----

  /** The inside of a literal: no bare quote, and nothing after a backslash but the symbol it escapes. */
  predicate LiteralBody(b: seq<Symbol>, quote: char) {
    || b == []
    || (b[|b| - 1] != Ch(quote) && b[|b| - 1] != Ch('\\') && LiteralBody(b[..|b| - 1], quote))
    || (|b| >= 2 && b[|b| - 2] == Ch('\\') && b[|b| - 1].Ch? && LiteralBody(b[..|b| - 2], quote))
  }

  lemma SnocTo(t: seq<Symbol>, b: seq<Symbol>)
    requires b != []
    ensures var u := t + b[..|b| - 1]; At(t + b) == Next(At(u), b[|b| - 1])
    ensures var u := t + b[..|b| - 1]; HasEnd(t + b) == (Completes(At(u), b[|b| - 1]) || HasEnd(u))
  {
    Snoc(t + b[..|b| - 1], b[|b| - 1]);
    assert t + b == t + b[..|b| - 1] + [b[|b| - 1]];
  }

  lemma {:induction false} InsideLiteral(t: seq<Symbol>, b: seq<Symbol>, quote: char)
    requires LiteralBody(b, quote)
    requires (quote == '"' && ModeAfter(t) == InString) || (quote == '\'' && ModeAfter(t) == InChar)
    ensures At(t + b) == At(t) && HasEnd(t + b) == HasEnd(t)
    decreases |b|
  {
    if b == [] {
      assert t + b == t;
    } else {
      SnocTo(t, b);
      var front := b[..|b| - 1];
      if b[|b| - 1] != Ch(quote) && b[|b| - 1] != Ch('\\') && LiteralBody(front, quote) {
        InsideLiteral(t, front, quote);
      } else {
        SnocTo(t, front);
        assert front[..|front| - 1] == b[..|b| - 2];
        InsideLiteral(t, b[..|b| - 2], quote);
      }
    }
  }

  /** A whole string or character literal in code: whatever braces it holds, depth and end stay as they are. */
  lemma LiteralIsSkipped(t: seq<Symbol>, b: seq<Symbol>, quote: char)
    requires quote in {'"', '\''} && ModeAfter(t) in {Code, Slash} && LiteralBody(b, quote)
    ensures var u := t + [Ch(quote)] + b + [Ch(quote)]; At(u) == At(t).(mode := Code) && HasEnd(u) == HasEnd(t)
  {
    var open := t + [Ch(quote)];
    Snoc(t, Ch(quote));
    InsideLiteral(open, b, quote);
    Snoc(open + b, Ch(quote));
  }

  lemma {:induction false} InsideLineComment(t: seq<Symbol>, b: seq<Symbol>)
    requires ModeAfter(t) == LineComment && EndOfLine !in b
    ensures At(t + b) == At(t) && HasEnd(t + b) == HasEnd(t)
    decreases |b|
  {
    if b == [] {
      assert t + b == t;
    } else {
      SnocTo(t, b);
      InsideLineComment(t, b[..|b| - 1]);
    }
  }

  /** A line comment in code, up to the end of its line. */
  lemma LineCommentIsSkipped(t: seq<Symbol>, b: seq<Symbol>)
    requires ModeAfter(t) == Code && EndOfLine !in b
    ensures var u := t + [Ch('/')] + [Ch('/')] + b + [EndOfLine]; At(u) == At(t) && HasEnd(u) == HasEnd(t)
  {
    var slash := t + [Ch('/')];
    var open := slash + [Ch('/')];
    Snoc(t, Ch('/'));
    Snoc(slash, Ch('/'));
    InsideLineComment(open, b);
    Snoc(open + b, EndOfLine);
  }

  /** The two symbols that end a block comment do not occur. */
  predicate NoCommentEnd(b: seq<Symbol>) {
    forall i :: 0 < i < |b| ==> !(b[i - 1] == Ch('*') && b[i] == Ch('/'))
  }

  lemma {:induction false} InsideBlockComment(t: seq<Symbol>, b: seq<Symbol>)
    requires ModeAfter(t) == BlockComment && NoCommentEnd(b)
    ensures At(t + b) == At(t).(mode := if b != [] && b[|b| - 1] == Ch('*') then Star else BlockComment)
    ensures HasEnd(t + b) == HasEnd(t)
    decreases |b|
  {
    if b == [] {
      assert t + b == t;
    } else {
      var front := b[..|b| - 1];
      SnocTo(t, b);
      assert NoCommentEnd(front);
      InsideBlockComment(t, front);
      if front != [] { assert !(b[|b| - 2] == Ch('*') && b[|b| - 1] == Ch('/')); }
    }
  }

  /** A block comment in code, however many lines it covers. */
  lemma BlockCommentIsSkipped(t: seq<Symbol>, b: seq<Symbol>)
    requires ModeAfter(t) == Code && NoCommentEnd(b)
    ensures var u := t + [Ch('/')] + [Ch('*')] + b + [Ch('*')] + [Ch('/')]; At(u) == At(t) && HasEnd(u) == HasEnd(t)
  {
    var slash := t + [Ch('/')];
    var open := slash + [Ch('*')];
    Snoc(t, Ch('/'));
    Snoc(slash, Ch('*'));
    InsideBlockComment(open, b);
    Snoc(open + b, Ch('*'));
    Snoc(open + b + [Ch('*')], Ch('/'));
  }

  /** Code counts its braces, a closing one only after an opening one, and nothing else. The end is the
      closing brace that brings the depth back to zero. */
  lemma BracesCount(t: seq<Symbol>, s: Symbol)
    requires ModeAfter(t) in {Code, Slash}
    ensures Depth(t + [s]) - Depth(t) == if s == Ch('{') then 1 else if s == Ch('}') && Opened(t) then -1 else 0
    ensures Opened(t + [s]) <==> Opened(t) || s == Ch('{')
    ensures HasEnd(t + [s]) <==> HasEnd(t) || (s == Ch('}') && Opened(t) && Depth(t) == 1)
    ensures s.EndOfLine? || s.c !in {'/', '*', '"', '\''} ==> ModeAfter(t + [s]) == Code
  {
    Snoc(t, s);
  }

  lemma {:induction false} NoBreaks(t: seq<Symbol>, line: string)
    ensures LineBreaks(t + Chars(line)) == LineBreaks(t)
    decreases |line|
  {
    if line == "" {
      assert t + Chars(line) == t;
    } else {
      var n := |line| - 1;
      NoBreaks(t, line[..n]);
      assert t + Chars(line) == t + Chars(line[..n]) + [Ch(line[n])];
      Snoc(t + Chars(line[..n]), Ch(line[n]));
    }
  }

  lemma {:induction false} TextBreaks(lines: seq<string>)
    ensures LineBreaks(Text(lines)) == |lines|
  {
    if lines != [] {
      var n := |lines| - 1;
      TextBreaks(lines[..n]);
      NoBreaks(Text(lines[..n]), lines[n]);
      Snoc(Text(lines[..n]) + Chars(lines[n]), EndOfLine);
    }
  }

  /** What has been read of the window: whole lines, and part of the next. */
  function Read(lines: seq<string>, k: nat, c: nat): seq<Symbol>
    requires k < |lines| && c <= |lines[k]|
  {
    Text(lines[..k]) + Chars(lines[k][..c])
  }

  lemma {:induction false} ReadIsPrefix(lines: seq<string>, k: nat, c: nat)
    requires k < |lines| && c <= |lines[k]|
    ensures Read(lines, k, c) <= Text(lines)
    decreases |lines|
  {
    var n := |lines| - 1;
    if k == n {
      assert Chars(lines[n][..c]) <= Chars(lines[n]);
    } else {
      ReadIsPrefix(lines[..n], k, c);
      assert lines[..n][..k] == lines[..k];
    }
  }

  lemma ReadMore(lines: seq<string>, k: nat, c: nat)
    requires k < |lines| && c < |lines[k]|
    ensures Read(lines, k, c + 1) == Read(lines, k, c) + [Ch(lines[k][c])]
  {
    assert Chars(lines[k][..c + 1]) == Chars(lines[k][..c]) + [Ch(lines[k][c])];
  }

  /** The flags and counters of the scanner. */
  datatype Lexer = Lexer(lineComment: bool, blockComment: bool, inString: bool, inChar: bool,
                         escapeNext: bool, depth: int, foundOpen: bool)

  /** `s` describes the progress `p`, given what is still to come on the line. */
  predicate Describes(s: Lexer, p: Progress, line: string, ci: nat)
    requires ci <= |line|
  {
    && s.depth == p.depth && s.foundOpen == p.open && Flags(s) == Plain(p.mode)
    && (p.mode == Slash && ci < |line| ==> line[ci] != '/' && line[ci] != '*')
    && (p.mode == Star && ci < |line| ==> line[ci] != '/')
  }

  function Flags(s: Lexer): (bool, bool, bool, bool, bool) {
    (s.lineComment, s.blockComment, s.inString, s.inChar, s.escapeNext)
  }

  /** The five flags of a mode; one symbol of lookahead makes `Slash` and `Star` unnecessary. */
  function Plain(m: Mode): (bool, bool, bool, bool, bool) {
    (m == LineComment, m == BlockComment || m == Star, m == InString || m == StringEscape,
     m == InChar || m == CharEscape, m == StringEscape || m == CharEscape)
  }

  /** One turn of the inner loop. */
  method Advance(s: Lexer, line: string, ci: nat, ghost p: Progress)
    returns (r: Lexer, step: nat, closed: bool)
    requires ci < |line| && Describes(s, p, line, ci)
    ensures 1 <= step <= 2 && ci + step <= |line|
    ensures closed == Completes(p, Ch(line[ci]))
    ensures !closed && step == 1 ==> Describes(r, Next(p, Ch(line[ci])), line, ci + 1)
    ensures step == 2 ==> var q := Next(p, Ch(line[ci]));
                          !closed && !Completes(q, Ch(line[ci + 1])) && Describes(r, Next(q, Ch(line[ci + 1])), line, ci + 2)
  {
    r, step, closed := s, 1, false;
    var ch := line[ci];
    if s.escapeNext { r := s.(escapeNext := false); return; }
    if ch == '\\' && (s.inString || s.inChar) { r := s.(escapeNext := true); return; }
    if s.lineComment { return; }
    if s.blockComment {
      if ch == '*' && ci + 1 < |line| && line[ci + 1] == '/' { r, step := s.(blockComment := false), 2; }
      return;
    }
    if s.inString {
      if ch == '"' { r := s.(inString := false); }
      return;
    }
    if s.inChar {
      if ch == '\'' { r := s.(inChar := false); }
      return;
    }
    if ch == '/' && ci + 1 < |line| && line[ci + 1] == '/' { r, step := s.(lineComment := true), 2; return; }
    if ch == '/' && ci + 1 < |line| && line[ci + 1] == '*' { r, step := s.(blockComment := true), 2; return; }
    if ch == '"' { r := s.(inString := true); return; }
    if ch == '\'' { r := s.(inChar := true); return; }
    if ch == '{' {
      r := s.(depth := s.depth + 1, foundOpen := true);
    } else if ch == '}' {
      if s.foundOpen {
        r := s.(depth := s.depth - 1);
        closed := r.depth == 0;
      }
    }
  }

  /** Nothing has closed up to column `ci` of line `k`, and `p` is the progress there. */
  ghost predicate Reached(window: seq<string>, k: nat, ci: nat, p: Progress) {
    k < |window| && ci <= |window[k]| && exists t :: t == Read(window, k, ci) && !HasEnd(t) && p == At(t)
  }

  /** The character at column `ci` of line `k` is the first that closes a body. */
  ghost predicate ClosesAt(window: seq<string>, k: nat, ci: nat) {
    k < |window| && ci < |window[k]| && exists t :: t == Read(window, k, ci + 1) && Closes(t) && !HasEnd(t[..|t| - 1])
  }

  /** The turn at column `ci` of a line. */
  method Turn(s: Lexer, window: seq<string>, k: nat, ci: nat, ghost p: Progress)
    returns (r: Lexer, step: nat, closed: bool, ghost q: Progress)
    requires Reached(window, k, ci, p) && ci < |window[k]| && Describes(s, p, window[k], ci)
    ensures 1 <= step <= 2 && ci + step <= |window[k]|
    ensures closed ==> ClosesAt(window, k, ci)
    ensures !closed ==> Reached(window, k, ci + step, q) && Describes(r, q, window[k], ci + step)
  {
    ghost var t := Read(window, k, ci);
    r, step, closed := Advance(s, window[k], ci, p);
    ReadMore(window, k, ci);
    Snoc(t, Ch(window[k][ci]));
    if step == 2 {
      ReadMore(window, k, ci + 1);
      Snoc(Read(window, k, ci + 1), Ch(window[k][ci + 1]));
    }
    q := At(Read(window, k, ci + step));
    if closed { assert Closes(t + [Ch(window[k][ci])]); }
  }

  /** One line of the window. */
  method ScanLine(s0: Lexer, window: seq<string>, k: nat, ghost p0: Progress)
    returns (s: Lexer, closed: bool, ghost end: nat, ghost p: Progress)
    requires k < |window| && Reached(window, k, 0, p0)
    requires Describes(s0.(lineComment := false), p0, window[k], 0)
    ensures closed ==> ClosesAt(window, k, end)
    ensures !closed ==> Reached(window, k, |window[k]|, p) && Describes(s, p, window[k], |window[k]|)
  {
    var line := window[k];
    var ci := 0;
    s, p, end := s0.(lineComment := false), p0, 0;
    while ci < |line|
      invariant ci <= |line| && Reached(window, k, ci, p) && Describes(s, p, line, ci)
    {
      var step;
      end := ci;
      s, step, closed, p := Turn(s, window, k, ci, p);
      if closed { return; }
      ci := ci + step;
    }
    closed := false;
  }

  lemma WindowStarts(s: Lexer, window: seq<string>) returns (p: Progress)
    requires window != [] && s == Lexer(false, false, false, false, false, 0, false)
    ensures Reached(window, 0, 0, p) && Describes(s, p, window[0], 0)
  {
    p := At([]);
    assert window[..0] == [] && Read(window, 0, 0) == [];
  }

  /** From the end of a line to the start of the next one, or of the window's end. */
  lemma LineEnds(s: Lexer, window: seq<string>, k: nat, p: Progress) returns (q: Progress)
    requires k < |window| && Reached(window, k, |window[k]|, p) && Describes(s, p, window[k], |window[k]|)
    ensures k + 1 == |window| ==> !HasEnd(Text(window))
    ensures k + 1 < |window| ==> Reached(window, k + 1, 0, q) && Describes(s.(lineComment := false), q, window[k + 1], 0)
  {
    var t := Read(window, k, |window[k]|);
    assert window[k][..|window[k]|] == window[k] && window[..k + 1][..k] == window[..k];
    assert Text(window[..k + 1]) == t + [EndOfLine];
    Snoc(t, EndOfLine);
    q := At(t + [EndOfLine]);
    if k + 1 == |window| { assert window[..k + 1] == window; }
    if k + 1 < |window| {
      assert Read(window, k + 1, 0) == Text(window[..k + 1]);
    }
  }

  const WINDOW := 2000

  /** The lines that the scanner looks at. */
  function Window(lines: seq<string>, start: int): seq<string>
    requires 1 <= start <= |lines|
  {
    lines[start - 1..if start - 1 + WINDOW < |lines| then start - 1 + WINDOW else |lines|]
  }

  /** Line `k` of the window is the one on which its first body closes. */
  ghost predicate FirstEnd(window: seq<string>, k: nat) {
    exists t :: t <= Text(window) && Closes(t) && !HasEnd(t[..|t| - 1]) && k == LineBreaks(t)
  }

  /** The outer loop: the index of the closing line, or the length of the window. */
  method ScanWindow(window: seq<string>) returns (k: nat)
    requires window != []
    ensures k <= |window|
    ensures k == |window| <==> !HasEnd(Text(window))
    ensures k < |window| ==> FirstEnd(window, k)
  {
    k := 0;
    var s := Lexer(false, false, false, false, false, 0, false);
    ghost var p := WindowStarts(s, window);
    while k < |window|
      invariant k <= |window|
      invariant k < |window| ==> Reached(window, k, 0, p) && Describes(s.(lineComment := false), p, window[k], 0)
      invariant k == |window| ==> !HasEnd(Text(window))
    {
      var closed;
      ghost var at;
      s, closed, at, p := ScanLine(s, window, k, p);
      if closed {
        Found(window, k, at);
        return;
      }
      p := LineEnds(s, window, k, p);
      k := k + 1;
    }
  }

  /** The line that ends the function starting on line `start`, or 0. */
  ghost predicate IsFunctionEnd(lines: seq<string>, start: int, end: int) {
    if end == 0 then 1 <= start <= |lines| ==> !HasEnd(Text(Window(lines, start)))
    else 1 <= start <= end <= |lines| && end < start + WINDOW && FirstEnd(Window(lines, start), end - start)
  }

  /** A window has one first end, and then the end is not 0. */
  lemma FirstEndIsUnique(window: seq<string>, i: nat, j: nat)
    requires FirstEnd(window, i) && FirstEnd(window, j)
    ensures i == j && HasEnd(Text(window))
  {
    var text := Text(window);
    var t :| t <= text && Closes(t) && !HasEnd(t[..|t| - 1]) && i == LineBreaks(t);
    var u :| u <= text && Closes(u) && !HasEnd(u[..|u| - 1]) && j == LineBreaks(u);
    Earlier(text, t, u);
    Earlier(text, u, t);
    assert t == text[..|t|] && u == text[..|u|];
    PrefixCloses(t, text);
  }

  lemma PrefixCloses(t: seq<Symbol>, text: seq<Symbol>)
    requires t <= text && Closes(t)
    ensures HasEnd(text)
  {
    HasEndIff(text);
    assert text[..|t|] == t;
  }

  lemma Earlier(text: seq<Symbol>, t: seq<Symbol>, u: seq<Symbol>)
    requires t <= text && u <= text && Closes(t) && u != [] && !HasEnd(u[..|u| - 1])
    ensures |u| <= |t|
  {
    if |t| < |u| { PrefixCloses(t, u[..|u| - 1]); }
  }

  /** There is always an answer. */
  lemma EndExists(lines: seq<string>, start: int) returns (end: int)
    requires 1 <= start <= |lines|
    ensures IsFunctionEnd(lines, start, end) && (end == 0 <==> !HasEnd(Text(Window(lines, start))))
  {
    var window := Window(lines, start);
    if HasEnd(Text(window)) {
      var t := FirstClosing(Text(window));
      LastBreak(window, t);
      end := start + LineBreaks(t);
    } else {
      end := 0;
    }
  }

  lemma {:induction false} FirstClosing(text: seq<Symbol>) returns (t: seq<Symbol>)
    requires HasEnd(text)
    ensures t <= text && Closes(t) && !HasEnd(t[..|t| - 1])
  {
    if HasEnd(text[..|text| - 1]) {
      t := FirstClosing(text[..|text| - 1]);
    } else {
      t := text;
    }
  }

  /** A prefix that does not end with a line end comes before the last one. */
  lemma BeforeLastBreak(text: seq<Symbol>, t: seq<Symbol>)
    requires t <= text && t != [] && t[|t| - 1] != EndOfLine && text[|text| - 1] == EndOfLine
    ensures LineBreaks(t) < LineBreaks(text)
  {
    var front := text[..|text| - 1];
    assert t == front[..|t|];
    BreaksGrow(front, |t|);
  }

  /** A prefix that ends in a brace ends on one of the lines. */
  lemma LastBreak(window: seq<string>, t: seq<Symbol>)
    requires t <= Text(window) && Closes(t)
    ensures LineBreaks(t) < |window|
  {
    TextBreaks(window);
    BeforeLastBreak(Text(window), t);
  }

  lemma FunctionEndIsUnique(lines: seq<string>, start: int, end: int, other: int)
    requires IsFunctionEnd(lines, start, end) && IsFunctionEnd(lines, start, other)
    ensures end == other
  {
    if end != 0 && other != 0 {
      FirstEndIsUnique(Window(lines, start), end - start, other - start);
    } else if end != 0 {
      FirstEndIsUnique(Window(lines, start), end - start, end - start);
    } else if other != 0 {
      FirstEndIsUnique(Window(lines, start), other - start, other - start);
    }
  }

  // ---- the reading of C ----

  /** The text ends in a backslash and a line end. */
  predicate EndsSpliced(t: seq<Symbol>) {
    |t| >= 2 && t[|t| - 2] == Ch('\\') && t[|t| - 1] == EndOfLine
  }

  /** The text as C reads it: the lines that end in a backslash are joined to the next. */
  function Splice(t: seq<Symbol>): seq<Symbol> {
    if t == [] then []
    else if EndsSpliced(t) then Splice(t[..|t| - 2])
    else Splice(t[..|t| - 1]) + [t[|t| - 1]]
  }

  /** Somewhere in `t` a backslash ends a line inside a literal, a line comment or half a comment mark. */
  predicate Misread(t: seq<Symbol>) {
    t != [] && (Misread(t[..|t| - 1]) || (EndsSpliced(t) && ModeAfter(t[..|t| - 2]) !in {Code, BlockComment}))
  }

  lemma Splicing(t: seq<Symbol>)
    requires EndsSpliced(t)
    ensures var u := t[..|t| - 2]; At(t) == Next(Next(At(u), Ch('\\')), EndOfLine) && HasEnd(t) == HasEnd(u)
  {
    var u := t[..|t| - 2];
    Snoc(u, Ch('\\'));
    Snoc(u + [Ch('\\')], EndOfLine);
    assert t == u + [Ch('\\')] + [EndOfLine];
  }

  /** Where nothing is misread, both readings agree on mode, depth and end. */
  lemma {:induction false} ReadsAsC(t: seq<Symbol>)
    requires !Misread(t)
    ensures At(Splice(t)) == At(t) && HasEnd(Splice(t)) == HasEnd(t)
    ensures Closes(t) ==> Closes(Splice(t))
    decreases |t|
  {
    if EndsSpliced(t) {
      var front := t[..|t| - 1];
      assert front[..|front| - 1] == t[..|t| - 2];
      ReadsAsC(t[..|t| - 2]);
      Splicing(t);
    } else if t != [] {
      var front, s := t[..|t| - 1], t[|t| - 1];
      ReadsAsC(front);
      Snoc(front, s);
      Snoc(Splice(front), s);
      assert t == front + [s];
    }
  }

  lemma {:induction false} MisreadGrows(t: seq<Symbol>, k: nat)
    requires k <= |t| && Misread(t[..k])
    ensures Misread(t)
    decreases |t|
  {
    if k == |t| {
      assert t[..k] == t;
    } else {
      assert t[..|t| - 1][..k] == t[..k];
      MisreadGrows(t[..|t| - 1], k);
    }
  }

  /** The exact condition: the scanner is in the mode of C after every prefix if and only if nothing
      is misread. */
  lemma {:induction false} ModesAgreeIff(t: seq<Symbol>)
    ensures (forall k :: 0 <= k <= |t| ==> ModeAfter(t[..k]) == ModeAfter(Splice(t[..k]))) <==> !Misread(t)
    decreases |t|
  {
    if !Misread(t) {
      forall k | 0 <= k <= |t| ensures ModeAfter(t[..k]) == ModeAfter(Splice(t[..k])) {
        if Misread(t[..k]) { MisreadGrows(t, k); }
        ReadsAsC(t[..k]);
      }
    } else {
      var front := t[..|t| - 1];
      assert t[..|t|] == t;
      if Misread(front) {
        ModesAgreeIff(front);
        var k :| 0 <= k <= |front| && ModeAfter(front[..k]) != ModeAfter(Splice(front[..k]));
        assert front[..k] == t[..k];
      } else {
        Splicing(t);
        assert 0 <= |t| - 2 <= |t|;
      }
    }
  }

  /** With the end of `t` the first body of `text` closes in C. */
  predicate EndsInC(text: seq<Symbol>, t: seq<Symbol>) {
    t != [] && t <= text && Closes(Splice(t)) && !HasEnd(Splice(t[..|t| - 1]))
  }

  /** Line `k` of the window is the one on which, in C, its first body closes. */
  ghost predicate FirstEndInC(window: seq<string>, k: nat) {
    exists t :: EndsInC(Text(window), t) && k == LineBreaks(t)
  }

  /** The line on which, in C, the function starting on line `start` ends, or 0. */
  ghost predicate IsFunctionEndInC(lines: seq<string>, start: int, end: int) {
    if end == 0 then 1 <= start <= |lines| ==> !HasEnd(Splice(Text(Window(lines, start))))
    else 1 <= start <= end <= |lines| && end < start + WINDOW && FirstEndInC(Window(lines, start), end - start)
  }

  lemma {:induction false} SpliceGrows(t: seq<Symbol>, text: seq<Symbol>)
    requires t <= text && t != [] && t[|t| - 1] != Ch('\\')
    ensures Splice(t) <= Splice(text)
    decreases |text|
  {
    if t != text {
      SpliceGrows(t, text[..|text| - 1]);
      if EndsSpliced(text) {
        assert |t| <= |text| - 2;
        SpliceGrows(t, text[..|text| - 2]);
      }
    }
  }

  lemma EarlierInC(text: seq<Symbol>, t: seq<Symbol>, u: seq<Symbol>)
    requires EndsInC(text, t) && EndsInC(text, u)
    ensures |u| <= |t| && HasEnd(Splice(text))
  {
    SpliceGrows(t, text);
    PrefixCloses(Splice(t), Splice(text));
    if |t| < |u| {
      var front := u[..|u| - 1];
      assert t <= front;
      SpliceGrows(t, front);
      PrefixCloses(Splice(t), Splice(front));
    }
  }

  /** C, too, has one first end. */
  lemma FirstEndInCIsUnique(window: seq<string>, i: nat, j: nat)
    requires FirstEndInC(window, i) && FirstEndInC(window, j)
    ensures i == j && HasEnd(Splice(Text(window)))
  {
    var t :| EndsInC(Text(window), t) && i == LineBreaks(t);
    var u :| EndsInC(Text(window), u) && j == LineBreaks(u);
    OneEndInC(Text(window), t, u);
  }

  lemma OneEndInC(text: seq<Symbol>, t: seq<Symbol>, u: seq<Symbol>)
    requires EndsInC(text, t) && EndsInC(text, u)
    ensures t == u && HasEnd(Splice(text))
  {
    EarlierInC(text, t, u);
    EarlierInC(text, u, t);
  }

  lemma {:induction false} BreaksGrow(t: seq<Symbol>, k: nat)
    requires k <= |t|
    ensures LineBreaks(t[..k]) <= LineBreaks(t)
  {
    if k == |t| {
      assert t[..k] == t;
    } else {
      BreaksGrow(t[..|t| - 1], k);
      assert t[..|t| - 1][..k] == t[..k];
    }
  }

  lemma {:induction false} TextPrefix(lines: seq<string>, n: nat)
    requires n <= |lines|
    ensures Text(lines[..n]) <= Text(lines)
    decreases |lines|
  {
    if n == |lines| {
      assert lines[..n] == lines;
    } else {
      TextPrefix(lines[..|lines| - 1], n);
      assert lines[..|lines| - 1][..n] == lines[..n];
    }
  }

  /** The prefix with fewer line ends is the shorter one. */
  lemma FewerBreaks(text: seq<Symbol>, t: seq<Symbol>, part: seq<Symbol>)
    requires t <= text && part <= text && LineBreaks(t) < LineBreaks(part)
    ensures t <= part
  {
    if |part| < |t| {
      assert t[..|part|] == part;
      BreaksGrow(t, |part|);
    }
  }

  /** Nothing is misread on the lines that decide the answer: up to the end, or all that are looked at. */
  predicate CleanUpTo(lines: seq<string>, start: int, end: int) {
    1 <= start <= |lines| && 0 <= end <= |lines| ==>
      !Misread(Text(if start <= end then lines[start - 1..end] else Window(lines, start)))
  }

  lemma EndOfPart(text: seq<Symbol>, part: seq<Symbol>, t: seq<Symbol>)
    requires t <= part <= text && !Misread(part) && Closes(t) && !HasEnd(t[..|t| - 1])
    ensures EndsInC(text, t)
  {
    assert part[..|t|] == t;
    if Misread(t) { MisreadGrows(part, |t|); }
    ReadsAsC(t);
    ReadsAsC(t[..|t| - 1]);
  }

  lemma FirstEndIsInC(window: seq<string>, k: nat)
    requires k < |window| && FirstEnd(window, k) && !Misread(Text(window[..k + 1]))
    ensures FirstEndInC(window, k)
  {
    var text, part := Text(window), Text(window[..k + 1]);
    var t :| t <= text && Closes(t) && !HasEnd(t[..|t| - 1]) && k == LineBreaks(t);
    TextPrefix(window, k + 1);
    TextBreaks(window[..k + 1]);
    FewerBreaks(text, t, part);
    EndOfPart(text, part, t);
  }

  /** Where nothing is misread, the end found is the end of C. */
  lemma EndIsEndInC(lines: seq<string>, start: int, end: int)
    requires IsFunctionEnd(lines, start, end) && CleanUpTo(lines, start, end)
    ensures IsFunctionEndInC(lines, start, end)
  {
    if end != 0 {
      assert Window(lines, start)[..end - start + 1] == lines[start - 1..end];
      FirstEndIsInC(Window(lines, start), end - start);
    } else if 1 <= start <= |lines| {
      ReadsAsC(Text(Window(lines, start)));
    }
  }

  lemma ThreeLines(a: string, b: string)
    ensures Text([a, b]) == Chars(a) + [EndOfLine] + Chars(b) + [EndOfLine]
    ensures Text([a, b, b]) == Chars(a) + [EndOfLine] + Chars(b) + [EndOfLine] + Chars(b) + [EndOfLine]
  {
    assert [a, b, b][..2] == [a, b] && [a, b][..1] == [a] && [a][..0] == [];
    assert Text([a]) == Chars(a) + [EndOfLine];
    assert Text([a, b]) == Text([a]) + Chars(b) + [EndOfLine];
    assert Text([a, b, b]) == Text([a, b]) + Chars(b) + [EndOfLine];
  }

  const OPEN := [Ch('{')]
  const CLOSE := Ch('}')
  const BACKSLASH := Ch('\\')
  const QUOTE := Ch('"')

  lemma Opening()
    ensures At(OPEN) == Progress(Code, 1, true) && !HasEnd(OPEN) && Splice(OPEN) == OPEN
  {
    Snoc([], Ch('{'));
    assert OPEN == [] + [Ch('{')];
  }

  /** A literal that a backslash continues on the next line: in C it is the empty string, and the
      body ends behind it; the scanner takes the closing quote for an escaped one and finds no end. */
  lemma ContinuedLiteral()
    ensures var lines := ["{\"\\", "\"}"]; IsFunctionEnd(lines, 1, 0) && IsFunctionEndInC(lines, 1, 2)
  {
    var lines := ["{\"\\", "\"}"];
    ThreeLines("{\"\\", "\"}");
    assert Window(lines, 1) == lines;
    Opening();
    var a := OPEN + [QUOTE];
    var b := a + [BACKSLASH];
    var c := b + [EndOfLine];
    var d := c + [QUOTE];
    var e := d + [CLOSE];
    assert Text(lines) == e + [EndOfLine];
    Snoc(OPEN, QUOTE);
    Snoc(a, BACKSLASH);
    Snoc(b, EndOfLine);
    Snoc(c, QUOTE);
    Snoc(d, CLOSE);
    Snoc(e, EndOfLine);
    assert c[..|c| - 2] == a && Splice(a) == a && Splice(c) == a;
    assert Splice(d) == a + [QUOTE] && Splice(e) == Splice(d) + [CLOSE];
    Snoc(a, QUOTE);
    Snoc(Splice(d), CLOSE);
    assert EndsInC(Text(lines), e);
  }

  const COMMENT := OPEN + [Ch('/')] + [Ch('/')]

  lemma CommentOpens()
    ensures At(COMMENT) == Progress(LineComment, 1, true) && !HasEnd(COMMENT) && LineBreaks(COMMENT) == 0
    ensures Splice(COMMENT) == COMMENT
  {
    Opening();
    Snoc(OPEN, Ch('/'));
    Snoc(OPEN + [Ch('/')], Ch('/'));
    assert LineBreaks(OPEN) == 0;
    assert Splice(OPEN + [Ch('/')]) == OPEN + [Ch('/')];
  }

  lemma ClosesInCode(t: seq<Symbol>)
    requires t == COMMENT + [BACKSLASH] + [EndOfLine] + [CLOSE]
    ensures Closes(t) && !HasEnd(t[..|t| - 1]) && LineBreaks(t) == 1
  {
    CommentOpens();
    Snoc(COMMENT, BACKSLASH);
    Snoc(COMMENT + [BACKSLASH], EndOfLine);
    Snoc(COMMENT + [BACKSLASH] + [EndOfLine], CLOSE);
  }

  lemma ClosesInC(d: seq<Symbol>, text: seq<Symbol>)
    requires d == COMMENT + [BACKSLASH] + [EndOfLine]
    requires d + [CLOSE] + [EndOfLine] + [CLOSE] <= text
    ensures EndsInC(text, d + [CLOSE] + [EndOfLine] + [CLOSE])
  {
    CommentOpens();
    var e := d + [CLOSE];
    var f := e + [EndOfLine];
    assert d[..|d| - 2] == COMMENT && Splice(d) == COMMENT;
    assert Splice(e) == COMMENT + [CLOSE] && Splice(f) == Splice(e) + [EndOfLine];
    assert Splice(f + [CLOSE]) == Splice(f) + [CLOSE] && (f + [CLOSE])[..|f|] == f;
    Snoc(COMMENT, CLOSE);
    Snoc(Splice(e), EndOfLine);
    Snoc(Splice(f), CLOSE);
  }

  /** A line comment that a backslash continues on the next line: in C the brace there is part of the
      comment; the scanner takes it for the end. */
  lemma ContinuedComment()
    ensures var lines := ["{//\\", "}", "}"]; IsFunctionEnd(lines, 1, 2) && IsFunctionEndInC(lines, 1, 3)
  {
    var lines := ["{//\\", "}", "}"];
    ThreeLines("{//\\", "}");
    assert Window(lines, 1) == lines;
    var d := COMMENT + [BACKSLASH] + [EndOfLine];
    var e := d + [CLOSE];
    var g := e + [EndOfLine] + [CLOSE];
    assert Text(lines) == g + [EndOfLine];
    ClosesInCode(e);
    assert e <= Text(lines);
    ClosesInC(d, Text(lines));
    Snoc(e, EndOfLine);
    Snoc(e + [EndOfLine], CLOSE);
  }

  /** _find_function_end. */
  method FindFunctionEnd(lines: seq<string>, start: int) returns (end: nat)
    ensures IsFunctionEnd(lines, start, end)
    ensures end == 0 && 1 <= start <= |lines| ==>
      !HasEnd(Text(lines[start - 1..if start - 1 + 2000 < |lines| then start - 1 + 2000 else |lines|]))
    ensures end != 0 ==> 1 <= start <= end <= |lines| && end < start + 2000
    ensures CleanUpTo(lines, start, end) ==> IsFunctionEndInC(lines, start, end)
  {
    var n := |lines|;
    var idx := start - 1;
    if idx < 0 || idx >= n { return 0; }
    var maxScan := if idx + WINDOW < n then idx + WINDOW else n;
    var k := ScanWindow(lines[idx..maxScan]);
    end := if k < maxScan - idx then idx + k + 1 else 0;
    assert IsFunctionEnd(lines, start, end);
    if CleanUpTo(lines, start, end) { EndIsEndInC(lines, start, end); }
  }

  lemma ReadBreaks(window: seq<string>, k: nat, c: nat)
    requires k < |window| && c <= |window[k]|
    ensures LineBreaks(Read(window, k, c)) == k
  {
    TextBreaks(window[..k]);
    NoBreaks(Text(window[..k]), window[k][..c]);
  }

  lemma Found(window: seq<string>, k: nat, c: nat)
    requires ClosesAt(window, k, c)
    ensures FirstEnd(window, k) && HasEnd(Text(window))
  {
    var t := Read(window, k, c + 1);
    assert t <= Text(window) by { ReadIsPrefix(window, k, c + 1); }
    ReadBreaks(window, k, c + 1);
    PrefixCloses(t, Text(window));
  }
}
