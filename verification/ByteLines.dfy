/** Splitting bytes at line feeds. */
module ByteLines {

  newtype byte = x: int | 0 <= x < 256

  type bytes = seq<byte>

  const LF: byte := 10

  /** The white space that Python strips from bytes. */
  predicate IsBlank(b: byte) {
    9 <= b <= 13 || b == 32
  }

  /** The white space of ASCII. */
  lemma BlankBytesAre(b: byte)
    ensures IsBlank(b) <==> b in {9, 10, 11, 12, 13, 32}
  {
  }

  /** The position of the first line feed, or the length. */
  function FirstLF(text: bytes): (n: nat)
    ensures n <= |text|
  {
    if text == [] || text[0] == LF then 0 else 1 + FirstLF(text[1..])
  }

  lemma {:induction false} FirstLFIsFirst(text: bytes)
    ensures var n := FirstLF(text); LF !in text[..n] && (n < |text| ==> text[n] == LF)
  {
    if !(text == [] || text[0] == LF) {
      FirstLFIsFirst(text[1..]);
      var n := FirstLF(text);
      assert text[..n] == [text[0]] + text[1..][..n - 1];
    }
  }

  /** split(b"\n"): never empty, and the last piece is what follows the last line feed. */
  function Split(text: bytes): (pieces: seq<bytes>)
    ensures pieces != []
    decreases |text|
  {
    var n := FirstLF(text);
    if n == |text| then [text] else [text[..n]] + Split(text[n + 1..])
  }

  function Join(pieces: seq<bytes>): bytes
    requires pieces != []
  {
    if |pieces| == 1 then pieces[0] else pieces[0] + [LF] + Join(pieces[1..])
  }

  function Front(pieces: seq<bytes>): seq<bytes>
    requires pieces != []
  {
    pieces[..|pieces| - 1]
  }

  function Last(pieces: seq<bytes>): bytes
    requires pieces != []
  {
    pieces[|pieces| - 1]
  }

  lemma FirstLFAt(line: bytes, rest: bytes)
    requires LF !in line
    ensures FirstLF(line + rest) == |line| + FirstLF(rest)
  {
    if line == [] {
      assert line + rest == rest;
    } else {
      assert (line + rest)[1..] == line[1..] + rest;
      FirstLFAt(line[1..], rest);
    }
  }

  lemma SplitLine(line: bytes, rest: bytes)
    requires LF !in line
    ensures Split(line + ([LF] + rest)) == [line] + Split(rest)
  {
    var text := line + ([LF] + rest);
    FirstLFAt(line, [LF] + rest);
    assert text[..|line|] == line && text[|line| + 1..] == rest;
  }

  lemma SplitLast(line: bytes)
    requires LF !in line
    ensures Split(line) == [line]
  {
    assert line + [] == line;
    FirstLFAt(line, []);
  }

  lemma JoinLine(line: bytes, pieces: seq<bytes>)
    requires pieces != []
    ensures Join([line] + pieces) == line + ([LF] + Join(pieces))
  {
    assert ([line] + pieces)[1..] == pieces;
    assert line + [LF] + Join(pieces) == line + ([LF] + Join(pieces));
  }

  /** A text either has no line feed or is a line, a line feed and a rest. */
  lemma FirstLine(text: bytes) returns (line: bytes, rest: bytes)
    ensures LF !in line
    ensures if LF in text then text == line + ([LF] + rest) && |rest| < |text| else text == line
  {
    var n := FirstLF(text);
    FirstLFIsFirst(text);
    line := text[..n];
    if n < |text| { rest := text[n + 1..]; } else { rest := []; }
  }

  /** Joining the pieces gives the text back, and no piece holds a line feed. */
  lemma {:induction false} JoinSplit(text: bytes)
    ensures Join(Split(text)) == text
    ensures forall piece :: piece in Split(text) ==> (10 as byte) !in piece
    decreases |text|
  {
    var line, rest := FirstLine(text);
    if LF in text {
      JoinSplit(rest);
      SplitLine(line, rest);
      JoinLine(line, Split(rest));
    } else {
      SplitLast(text);
    }
  }

  /** Splitting joined pieces gives the pieces back. */
  lemma {:induction false} SplitJoin(pieces: seq<bytes>)
    requires pieces != [] && forall piece :: piece in pieces ==> LF !in piece
    ensures Split(Join(pieces)) == pieces
  {
    if |pieces| == 1 {
      SplitLast(pieces[0]);
    } else {
      var line, rest := pieces[0], pieces[1..];
      SplitJoin(rest);
      SplitLine(line, Join(rest));
      assert pieces == [line] + rest;
      JoinLine(line, rest);
    }
  }

  lemma FrontOfCons(piece: bytes, rest: seq<bytes>, more: seq<bytes>)
    requires rest != []
    ensures Front([piece] + rest) + more == [piece] + (Front(rest) + more) && Last([piece] + rest) == Last(rest)
  {
  }

  /** More text only touches the last piece. */
  lemma {:induction false} SplitAppend(a: bytes, b: bytes)
    ensures Split(a + b) == Front(Split(a)) + Split(Last(Split(a)) + b)
    decreases |a|
  {
    var line, rest := FirstLine(a);
    if LF in a {
      SplitAppend(rest, b);
      SplitLine(line, rest);
      SplitLine(line, rest + b);
      assert a + b == line + ([LF] + (rest + b));
      FrontOfCons(line, Split(rest), Split(Last(Split(rest)) + b));
    } else {
      SplitLast(a);
    }
  }
}
