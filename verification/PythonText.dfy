/** The string methods of Python that the extraction checks rely on. */
module PythonText {

  /** The characters that Python's splitlines splits at. */
  predicate IsBreak(c: char) {
    0x0a <= c as int <= 0x0d || 0x1c <= c as int <= 0x1e || c as int in {0x85, 0x2028, 0x2029}
  }

  /** The characters that Python's strip removes. */
  predicate IsSpace(c: char) {
    || IsBreak(c) || c == ' ' || c == '\t' || c as int == 0x1f || 0x2000 <= c as int <= 0x200a
    || c as int in {0xa0, 0x1680, 0x202f, 0x205f, 0x3000}
  }

  /** Every line break is white space, and no printing character of ASCII is. */
  lemma Characters(c: char)
    ensures IsBreak(c) <==> c as int in {10, 11, 12, 13, 28, 29, 30, 133, 8232, 8233}
    ensures IsSpace(c) <==> IsBreak(c) || c as int in {9, 31, 32, 160, 5760, 8239, 8287, 12288} || 8192 <= c as int <= 8202
  {
  }

  /** A line as splitlines makes it. */
  predicate IsLine(line: string) {
    forall i :: 0 <= i < |line| ==> !IsBreak(line[i])
  }

  function Join(lines: seq<string>): string {
    if lines == [] then "" else if |lines| == 1 then lines[0] else lines[0] + "\n" + Join(lines[1..])
  }

  /** The length of the first line of `text`. */
  function LineLength(text: string): (n: nat)
    ensures n <= |text|
  {
    if text == "" || IsBreak(text[0]) then 0 else 1 + LineLength(text[1..])
  }

  /** splitlines; a carriage return and line feed count as one break. */
  function SplitLines(text: string): seq<string> {
    if text == "" then []
    else
      var n := LineLength(text);
      if n == |text| then [text]
      else if text[n] == '\r' && n + 1 < |text| && text[n + 1] == '\n' then [text[..n]] + SplitLines(text[n + 2..])
      else [text[..n]] + SplitLines(text[n + 1..])
  }

  function RStrip(text: string): string {
    if text != "" && IsSpace(text[|text| - 1]) then RStrip(text[..|text| - 1]) else text
  }

  function LStrip(text: string): string {
    if text != "" && IsSpace(text[0]) then LStrip(text[1..]) else text
  }

  function Strip(text: string): string {
    LStrip(RStrip(text))
  }

  lemma {:induction false} RStripIs(text: string, right: string)
    requires (forall c :: c in right ==> IsSpace(c)) && (text == "" || !IsSpace(text[|text| - 1]))
    ensures RStrip(text + right) == text
    decreases |right|
  {
    if right == "" {
      assert text + right == text;
    } else {
      assert (text + right)[..|text + right| - 1] == text + right[..|right| - 1];
      assert right[|right| - 1] in right;
      RStripIs(text, right[..|right| - 1]);
    }
  }

  lemma {:induction false} LStripIs(left: string, text: string)
    requires (forall c :: c in left ==> IsSpace(c)) && (text == "" || !IsSpace(text[0]))
    ensures LStrip(left + text) == text
    decreases |left|
  {
    if left == "" {
      assert left + text == text;
    } else {
      assert (left + text)[1..] == left[1..] + text && left[0] in left;
      LStripIs(left[1..], text);
    }
  }

  /** Stripping takes the white space off both ends and nothing else. */
  lemma StripIs(left: string, core: string, right: string)
    requires forall c :: c in left + right ==> IsSpace(c)
    requires core != "" ==> !IsSpace(core[0]) && !IsSpace(core[|core| - 1])
    ensures Strip(left + core + right) == core
  {
    if core == "" {
      assert left + core + right == "" + (left + right);
      RStripIs("", left + right);
      LStripIs("", "");
    } else {
      RStripIs(left + core, right);
      LStripIs(left, core);
    }
  }

  lemma {:induction false} FirstLine(text: string)
    ensures var n := LineLength(text); IsLine(text[..n]) && (n < |text| ==> IsBreak(text[n]))
  {
    if !(text == "" || IsBreak(text[0])) {
      FirstLine(text[1..]);
      var n := LineLength(text);
      assert text[..n] == [text[0]] + text[1..][..n - 1];
    }
  }

  lemma {:induction false} LineLengthAt(line: string, rest: string)
    requires IsLine(line) && (rest == "" || IsBreak(rest[0]))
    ensures LineLength(line + rest) == |line|
  {
    if line != "" {
      assert (line + rest)[1..] == line[1..] + rest;
      LineLengthAt(line[1..], rest);
    } else {
      assert line + rest == rest;
    }
  }

  /** Each break ends a line. */
  lemma SplitAtBreak(line: string, c: char, rest: string)
    requires IsLine(line) && IsBreak(c) && !(c == '\r' && rest != "" && rest[0] == '\n')
    ensures SplitLines(line + ([c] + rest)) == [line] + SplitLines(rest)
  {
    var text, n := line + ([c] + rest), |line|;
    LineLengthAt(line, [c] + rest);
    assert text[..n] == line && text[n] == c && text[n + 1..] == rest;
    if n + 1 < |text| { assert text[n + 1] == rest[0]; }
  }

  /** A carriage return and its line feed are one break. */
  lemma SplitAtCrLf(line: string, rest: string)
    requires IsLine(line)
    ensures SplitLines(line + ("\r\n" + rest)) == [line] + SplitLines(rest)
  {
    var text, n := line + ("\r\n" + rest), |line|;
    LineLengthAt(line, "\r\n" + rest);
    assert text[..n] == line && text[n] == '\r' && text[n + 1] == '\n' && text[n + 2..] == rest;
  }

  lemma SplitLast(line: string)
    requires IsLine(line)
    ensures SplitLines(line) == if line == "" then [] else [line]
  {
    assert line + "" == line;
    LineLengthAt(line, "");
  }

  /** The lines without one last empty line. */
  function Trim(lines: seq<string>): seq<string>
    requires lines != []
  {
    if lines[|lines| - 1] == "" then lines[..|lines| - 1] else lines
  }

  lemma TrimRest(lines: seq<string>)
    requires |lines| > 1
    ensures [lines[0]] + Trim(lines[1..]) == Trim(lines)
  {
    assert [lines[0]] + lines[1..] == lines;
  }

  /** All of the lines are lines. */
  predicate AreLines(lines: seq<string>) {
    forall line :: line in lines ==> IsLine(line)
  }

  lemma SplitMore(lines: seq<string>, rest: string)
    requires |lines| > 1 && IsLine(lines[0]) && rest == Join(lines[1..]) && SplitLines(rest) == Trim(lines[1..])
    ensures SplitLines(Join(lines)) == Trim(lines)
  {
    assert Join(lines) == lines[0] + ("\n" + rest);
    assert "\n" + rest == ['\n'] + rest;
    SplitAtBreak(lines[0], '\n', rest);
    TrimRest(lines);
  }

  /** Splitting joined lines gives them back, but for one last empty line. */
  lemma {:induction false} SplitJoin(lines: seq<string>)
    requires lines != [] && AreLines(lines)
    ensures SplitLines(Join(lines)) == Trim(lines)
  {
    if |lines| == 1 {
      SplitLast(lines[0]);
    } else {
      SplitJoin(lines[1..]);
      SplitMore(lines, Join(lines[1..]));
    }
  }

  /** A last empty line adds one line feed. */
  lemma {:induction false} JoinEmptyLast(lines: seq<string>)
    requires lines != []
    ensures Join(lines + [""]) == Join(lines) + "\n"
  {
    var more := lines + [""];
    if |lines| == 1 {
      assert more[1..] == [""];
    } else {
      JoinEmptyLast(lines[1..]);
      assert more[1..] == lines[1..] + [""];
    }
  }
}
