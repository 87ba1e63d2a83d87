/** The fast check of an extracted function: its stored body against the lines of its file. */
module R2Script {
  import opened PythonText

  datatype Verdict = Pass | Mismatch

  function StripEach(lines: seq<string>): (r: seq<string>)
    ensures |r| == |lines| && forall i :: 0 <= i < |r| ==> r[i] == RStrip(lines[i])
  {
    seq(|lines|, i requires 0 <= i < |lines| => RStrip(lines[i]))
  }

  function Norm(text: string): string {
    Strip(Join(StripEach(SplitLines(text))))
  }

  function Body(lines: seq<string>, start: int, end: int): string
    requires 1 <= start <= |lines| && start - 1 <= end
  {
    Join(lines[start - 1..if end < |lines| then end else |lines|])
  }

  /** r2_script_validate. A range that ends before it starts has an empty body. */
  function Validate(start: int, end: int, stored: string, lines: seq<string>): Verdict {
    if start <= 0 || end <= 0 || start > |lines| || end > |lines| then Mismatch
    else
      var actual := if end < start - 1 then "" else Body(lines, start, end);
      if Norm(actual) == Norm(stored) then Pass else Mismatch
  }

  /** Dropping an empty last line changes nothing once the end is stripped. */
  lemma DropEmptyLast(front: seq<string>)
    ensures RStrip(Join(front + [""])) == RStrip(Join(front))
  {
    if front == [] {
      assert front + [""] == [""];
    } else {
      JoinEmptyLast(front);
      var text := Join(front);
      assert (text + "\n")[..|text|] == text;
    }
  }

  lemma StripEachLast(lines: seq<string>)
    requires lines != [] && lines[|lines| - 1] == ""
    ensures StripEach(lines) == StripEach(lines[..|lines| - 1]) + [""]
  {
  }

  /** Normalizing joined lines strips each and then the whole. */
  lemma NormOfJoin(lines: seq<string>)
    requires AreLines(lines)
    ensures Norm(Join(lines)) == Strip(Join(StripEach(lines)))
  {
    if lines != [] {
      SplitJoin(lines);
      var n := |lines| - 1;
      if lines[n] == "" {
        StripEachLast(lines);
        DropEmptyLast(StripEach(lines[..n]));
      }
    }
  }

  /** The same but for white space at the end of each line. */
  predicate SameButPadding(a: seq<string>, b: seq<string>) {
    |a| == |b| && forall i :: 0 <= i < |a| ==> RStrip(a[i]) == RStrip(b[i])
  }

  lemma SameStripped(a: seq<string>, b: seq<string>)
    requires SameButPadding(a, b)
    ensures StripEach(a) == StripEach(b)
  {
  }

  /** Lines that differ in trailing white space only are the same to the check. */
  lemma PaddingIgnored(start: int, end: int, stored: seq<string>, lines: seq<string>)
    requires 1 <= start <= end <= |lines|
    requires AreLines(stored) && AreLines(lines) && SameButPadding(lines[start - 1..end], stored)
    ensures Validate(start, end, Join(stored), lines) == Pass
  {
    NormOfJoin(stored);
    NormOfJoin(lines[start - 1..end]);
    SameStripped(lines[start - 1..end], stored);
  }

  // ---- exactly when the check passes ----

  /** Without the blank lines at the end. */
  function DropTail(lines: seq<string>): seq<string> {
    if lines != [] && lines[|lines| - 1] == "" then DropTail(lines[..|lines| - 1]) else lines
  }

  /** Without the blank lines at the start and the indentation of the first other line. */
  function DropHead(lines: seq<string>): seq<string> {
    if lines == [] then [] else if lines[0] == "" then DropHead(lines[1..]) else [LStrip(lines[0])] + lines[1..]
  }

  /** What the check compares: the lines stripped on the right, without outer blank space. */
  function Core(lines: seq<string>): seq<string> {
    DropHead(DropTail(StripEach(lines)))
  }

  /** No line ends in white space. */
  predicate Stripped(lines: seq<string>) {
    forall line :: line in lines ==> line == "" || !IsSpace(line[|line| - 1])
  }

  lemma {:induction false} RStripEnds(text: string)
    ensures var r := RStrip(text); r <= text && (r == "" || !IsSpace(r[|r| - 1]))
  {
    if text != "" && IsSpace(text[|text| - 1]) { RStripEnds(text[..|text| - 1]); }
  }

  lemma {:induction false} LStripEnds(text: string)
    requires text != "" && !IsSpace(text[|text| - 1])
    ensures var r := LStrip(text); r != "" && !IsSpace(r[0]) && r[|r| - 1] == text[|text| - 1]
    ensures IsLine(text) ==> IsLine(LStrip(text))
  {
    if IsSpace(text[0]) { LStripEnds(text[1..]); }
  }

  lemma {:induction false} LStripFirst(line: string, rest: string)
    requires line != "" && !IsSpace(line[|line| - 1])
    ensures LStrip(line + rest) == LStrip(line) + rest
  {
    if IsSpace(line[0]) {
      assert (line + rest)[1..] == line[1..] + rest;
      LStripFirst(line[1..], rest);
    }
  }

  /** Joined lines end as the last one does. */
  lemma {:induction false} JoinEnds(lines: seq<string>)
    requires lines != [] && lines[|lines| - 1] != ""
    ensures var t, last := Join(lines), lines[|lines| - 1]; t != "" && t[|t| - 1] == last[|last| - 1]
  {
    if |lines| > 1 { JoinEnds(lines[1..]); }
  }

  lemma {:induction false} RStripJoin(lines: seq<string>)
    requires Stripped(lines)
    ensures RStrip(Join(lines)) == Join(DropTail(lines))
  {
    if lines != [] {
      var front, last := lines[..|lines| - 1], lines[|lines| - 1];
      assert lines == front + [last];
      if last == "" {
        DropEmptyLast(front);
        RStripJoin(front);
      } else {
        JoinEnds(lines);
      }
    }
  }

  lemma JoinCons(line: string, rest: seq<string>)
    requires rest != []
    ensures Join([line] + rest) == line + ("\n" + Join(rest))
  {
    assert ([line] + rest)[1..] == rest;
    assert line + "\n" + Join(rest) == line + ("\n" + Join(rest));
  }

  lemma {:induction false} LStripJoin(lines: seq<string>)
    requires Stripped(lines) && (lines != [] ==> lines[|lines| - 1] != "")
    ensures LStrip(Join(lines)) == Join(DropHead(lines))
  {
    if lines != [] {
      var line, rest := lines[0], lines[1..];
      assert lines == [line] + rest;
      if rest == [] {
      } else if line == "" {
        JoinCons(line, rest);
        assert ("" + ("\n" + Join(rest)))[1..] == Join(rest);
        LStripJoin(rest);
      } else {
        JoinCons(line, rest);
        JoinCons(LStrip(line), rest);
        LStripFirst(line, "\n" + Join(rest));
      }
    }
  }

  lemma {:induction false} DropTailIs(lines: seq<string>)
    ensures DropTail(lines) <= lines && (DropTail(lines) != [] ==> DropTail(lines)[|DropTail(lines)| - 1] != "")
  {
    if lines != [] && lines[|lines| - 1] == "" { DropTailIs(lines[..|lines| - 1]); }
  }

  lemma {:induction false} DropHeadIs(lines: seq<string>)
    requires Stripped(lines) && AreLines(lines) && (lines != [] ==> lines[|lines| - 1] != "")
    ensures var r := DropHead(lines); AreLines(r) && (r == [] <==> lines == []) && (r != [] ==> r[|r| - 1] != "")
  {
    if lines != [] {
      if lines[0] == "" {
        DropHeadIs(lines[1..]);
      } else {
        LStripEnds(lines[0]);
      }
    }
  }

  lemma StrippedEach(lines: seq<string>)
    ensures Stripped(StripEach(lines)) && (AreLines(lines) ==> AreLines(StripEach(lines)))
  {
    forall line | line in StripEach(lines)
      ensures (line == "" || !IsSpace(line[|line| - 1])) && (AreLines(lines) ==> IsLine(line))
    {
      var i :| 0 <= i < |lines| && StripEach(lines)[i] == line;
      RStripEnds(lines[i]);
      assert lines[i] in lines;
    }
  }

  lemma CoreIs(lines: seq<string>)
    ensures Strip(Join(StripEach(lines))) == Join(Core(lines))
    ensures AreLines(lines) ==> AreLines(Core(lines))
    ensures AreLines(lines) && Core(lines) != [] ==> Core(lines)[|Core(lines)| - 1] != ""
  {
    var stripped := StripEach(lines);
    var tail := DropTail(stripped);
    StrippedEach(lines);
    RStripJoin(stripped);
    DropTailIs(stripped);
    assert forall line :: line in tail ==> line in stripped;
    LStripJoin(tail);
    if AreLines(lines) { DropHeadIs(tail); }
  }

  /** Joining tells lines apart, if the last is not empty. */
  lemma JoinTellsApart(a: seq<string>, b: seq<string>)
    requires AreLines(a) && (a != [] ==> a[|a| - 1] != "")
    requires AreLines(b) && (b != [] ==> b[|b| - 1] != "")
    ensures Join(a) == Join(b) <==> a == b
  {
    if a != [] { SplitJoin(a); }
    if b != [] { SplitJoin(b); }
  }

  lemma {:induction false} SplitIntoLines(text: string)
    ensures AreLines(SplitLines(text))
    decreases |text|
  {
    if text != "" {
      FirstLine(text);
      var n := LineLength(text);
      if n == |text| {
        assert text[..n] == text;
      } else {
        if n + 1 < |text| { SplitIntoLines(text[n + 2..]); }
        SplitIntoLines(text[n + 1..]);
      }
    }
  }

  /** The lines from `start` to `end`; none if the range is empty. */
  function Range(lines: seq<string>, start: int, end: int): seq<string>
    requires 1 <= start <= |lines| && end <= |lines|
  {
    if end < start then [] else lines[start - 1..end]
  }

  /** The check passes if and only if the range lies in the file and its lines are those of the stored
      body, up to white space at line ends and around the whole. */
  lemma PassesIffSameCore(start: int, end: int, stored: string, lines: seq<string>)
    requires AreLines(lines)
    ensures Validate(start, end, stored, lines) == Pass <==>
            1 <= start <= |lines| && 1 <= end <= |lines| && Core(Range(lines, start, end)) == Core(SplitLines(stored))
  {
    if 1 <= start <= |lines| && 1 <= end <= |lines| {
      var actual, pieces := Range(lines, start, end), SplitLines(stored);
      assert AreLines(actual);
      NormOfJoin(actual);
      SplitIntoLines(stored);
      CoreIs(actual);
      CoreIs(pieces);
      JoinTellsApart(Core(actual), Core(pieces));
      assert end < start ==> Join(actual) == "";
      if end >= start - 1 { assert Join(actual) == Body(lines, start, end); }
    }
  }
}
