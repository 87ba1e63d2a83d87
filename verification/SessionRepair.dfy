/** A session file whose writer was killed: cut after the last line that parses. */
module SessionRepair {
  import opened ByteLines

  function StripRight(line: bytes): bytes {
    if line != [] && IsBlank(line[|line| - 1]) then StripRight(line[..|line| - 1]) else line
  }

  function StripLeft(line: bytes): bytes {
    if line != [] && IsBlank(line[0]) then StripLeft(line[1..]) else line
  }

  /** The line has content and that parses. */
  predicate Good(parses: bytes -> bool, line: bytes) {
    var stripped := StripLeft(StripRight(line));
    stripped != [] && parses(stripped)
  }

  /** White space around a line makes no difference, and a line of white space only is not good. */
  lemma GoodIs(parses: bytes -> bool, left: bytes, core: bytes, right: bytes)
    requires (forall b :: b in left + right ==> IsBlank(b))
    requires core != [] ==> !IsBlank(core[0]) && !IsBlank(core[|core| - 1])
    ensures Good(parses, left + core + right) <==> core != [] && parses(core)
  {
    RightBlank(left + core, right);
    if core == [] {
      assert left + core == left;
      assert [] + left == left;
      RightBlank([], left);
    } else {
      assert StripRight(left + core) == left + core;
      LeftBlank(left, core);
    }
  }

  lemma {:induction false} RightBlank(line: bytes, right: bytes)
    requires forall b :: b in right ==> IsBlank(b)
    ensures StripRight(line + right) == StripRight(line)
    decreases |right|
  {
    if right == [] {
      assert line + right == line;
    } else {
      assert (line + right)[..|line + right| - 1] == line + right[..|right| - 1];
      assert right[|right| - 1] in right;
      RightBlank(line, right[..|right| - 1]);
    }
  }

  lemma {:induction false} LeftBlank(left: bytes, core: bytes)
    requires (forall b :: b in left ==> IsBlank(b)) && core != [] && !IsBlank(core[0])
    ensures StripLeft(left + core) == core
    decreases |left|
  {
    if left == [] {
      assert left + core == core;
    } else {
      assert (left + core)[1..] == left[1..] + core && left[0] in left;
      LeftBlank(left[1..], core);
    }
  }

  /** The good lines, in order. */
  function GoodLines(parses: bytes -> bool, lines: seq<bytes>): seq<bytes> {
    if lines == [] then []
    else GoodLines(parses, lines[..|lines| - 1]) + (if Good(parses, Last(lines)) then [Last(lines)] else [])
  }

  /** The lines up to the last good one. */
  function UpToGood(parses: bytes -> bool, lines: seq<bytes>): seq<bytes> {
    if lines == [] || Good(parses, Last(lines)) then lines else UpToGood(parses, lines[..|lines| - 1])
  }

  /** What the file should become. */
  function Repaired(parses: bytes -> bool, content: bytes): bytes {
    var kept := UpToGood(parses, Split(content));
    if kept == [] || kept == Split(content) then content else Join(kept + [[]])
  }

  /** The length of lines that each end in a line feed. */
  function Length(lines: seq<bytes>): nat {
    if lines == [] then 0 else Length(lines[..|lines| - 1]) + |Last(lines)| + 1
  }

  lemma {:induction false} LengthJoin(lines: seq<bytes>)
    requires lines != []
    ensures |Join(lines)| + 1 == Length(lines)
  {
    if |lines| > 1 {
      JoinSnoc(lines[..|lines| - 1], Last(lines));
      assert lines == lines[..|lines| - 1] + [Last(lines)];
      LengthJoin(lines[..|lines| - 1]);
    }
  }

  lemma {:induction false} JoinSnoc(lines: seq<bytes>, line: bytes)
    requires lines != []
    ensures Join(lines + [line]) == Join(lines) + [LF] + line
  {
    var more := lines + [line];
    if |lines| == 1 {
      assert more[1..] == [line];
    } else {
      JoinSnoc(lines[1..], line);
      assert more[1..] == lines[1..] + [line];
    }
  }

  /** A prefix of the pieces, each ended, is a prefix of the text. */
  lemma {:induction false} PrefixOfJoin(lines: seq<bytes>, k: nat)
    requires 0 < k < |lines|
    ensures Join(lines[..k] + [[]]) <= Join(lines)
    ensures |Join(lines[..k] + [[]])| == Length(lines[..k])
    decreases |lines|
  {
    var n := |lines| - 1;
    JoinSnoc(lines[..k], []);
    LengthJoin(lines[..k]);
    JoinSnoc(lines[..n], lines[n]);
    assert lines == lines[..n] + [lines[n]];
    if k < n {
      PrefixOfJoin(lines[..n], k);
      assert lines[..n][..k] == lines[..k];
    }
  }

  lemma {:induction false} UpToGoodIs(parses: bytes -> bool, lines: seq<bytes>)
    ensures UpToGood(parses, lines) <= lines
    ensures GoodLines(parses, UpToGood(parses, lines)) == GoodLines(parses, lines)
    ensures UpToGood(parses, lines) == [] <==> GoodLines(parses, lines) == []
    ensures UpToGood(parses, lines) != [] ==> Good(parses, Last(UpToGood(parses, lines)))
  {
    if lines != [] && !Good(parses, Last(lines)) { UpToGoodIs(parses, lines[..|lines| - 1]); }
  }

  lemma LengthOfRepaired(parses: bytes -> bool, content: bytes)
    ensures Repaired(parses, content) <= content
    ensures var kept := UpToGood(parses, Split(content));
            kept != [] && kept != Split(content) ==> |Repaired(parses, content)| == Length(kept) > 0
  {
    var lines, kept := Split(content), UpToGood(parses, Split(content));
    UpToGoodIs(parses, lines);
    JoinSplit(content);
    if kept != [] && kept != lines {
      assert kept == lines[..|kept|] && |kept| < |lines|;
      PrefixOfJoin(lines, |kept|);
    }
  }

  /** The pieces of the repaired file. */
  lemma PiecesOfRepaired(parses: bytes -> bool, content: bytes)
    ensures var lines, kept := Split(content), UpToGood(parses, Split(content));
            Split(Repaired(parses, content)) == if kept == [] || kept == lines then lines else kept + [[]]
  {
    var lines, kept := Split(content), UpToGood(parses, Split(content));
    UpToGoodIs(parses, lines);
    JoinSplit(content);
    if kept != [] && kept != lines {
      assert forall piece :: piece in kept + [[]] ==> piece in lines || piece == [];
      SplitJoin(kept + [[]]);
    }
  }

  /** Repair only cuts the end off, keeps every good line, and ends with one if there is any. */
  lemma RepairKeepsGoodLines(parses: bytes -> bool, content: bytes)
    ensures var r := Repaired(parses, content);
            && r <= content
            && GoodLines(parses, Split(r)) == GoodLines(parses, Split(content))
            && (GoodLines(parses, Split(content)) == [] ==> r == content)
            && (GoodLines(parses, Split(content)) != [] ==>
                  Good(parses, Last(Split(r))) || (|Split(r)| > 1 && Last(Split(r)) == [] && Good(parses, Last(Front(Split(r))))))
  {
    var lines, kept := Split(content), UpToGood(parses, Split(content));
    LengthOfRepaired(parses, content);
    PiecesOfRepaired(parses, content);
    UpToGoodIs(parses, lines);
    if kept != [] && kept != lines {
      assert Front(kept + [[]]) == kept && (kept + [[]])[..|kept|] == kept;
    }
  }

  lemma RepairIsIdempotent(parses: bytes -> bool, content: bytes)
    ensures Repaired(parses, Repaired(parses, content)) == Repaired(parses, content)
  {
    var lines, kept := Split(content), UpToGood(parses, Split(content));
    PiecesOfRepaired(parses, content);
    UpToGoodIs(parses, lines);
    if kept != [] && kept != lines {
      assert (kept + [[]])[..|kept|] == kept;
      assert UpToGood(parses, kept + [[]]) == UpToGood(parses, kept) == kept;
    }
  }

  /** _truncate_session_to_last_complete_line, on the bytes of the file. */
  method Truncate(parses: bytes -> bool, content: bytes) returns (file: bytes)
    ensures file == Repaired(parses, content)
  {
    if content == [] { return content; }
    var lines := Split(content);
    var lastValid, pos := 0, 0;
    ghost var kept: seq<bytes> := [];
    for i := 0 to |lines|
      invariant pos == Length(lines[..i]) && kept == UpToGood(parses, lines[..i]) && lastValid == Length(kept)
    {
      var line := lines[i];
      assert lines[..i + 1][..i] == lines[..i];
      var stripped := StripLeft(StripRight(line));
      if stripped != [] && parses(stripped) {
        lastValid := pos + |line| + 1;
        kept := lines[..i + 1];
      }
      pos := pos + |line| + 1;
    }
    assert lines[..|lines|] == lines;
    CutAt(parses, content, lastValid);
    if lastValid < |content| && lastValid > 0 {
      return content[..lastValid];
    }
    return content;
  }

  lemma CutAt(parses: bytes -> bool, content: bytes, lastValid: nat)
    requires lastValid == Length(UpToGood(parses, Split(content)))
    ensures Repaired(parses, content) == if 0 < lastValid < |content| then content[..lastValid] else content
  {
    var lines := Split(content);
    var kept, r := UpToGood(parses, lines), Repaired(parses, content);
    if kept == [] {
    } else if kept == lines {
      WholeLength(content);
    } else {
      LengthOfRepaired(parses, content);
      PrefixIsTake(r, content);
    }
  }

  lemma PrefixIsTake(a: bytes, b: bytes)
    requires a <= b
    ensures a == b[..|a|] && (|a| == |b| ==> a == b)
  {
  }

  lemma WholeLength(content: bytes)
    ensures Length(Split(content)) == |content| + 1
  {
    JoinSplit(content);
    LengthJoin(Split(content));
  }
}
