/** From the raw entries of the parsers to the function records of one file. */
module Extractor {
  import opened Options
  import PythonText
  import R2Script
  import opened Scanner
  import StableSort

  /** A raw entry; `endLine` is 0 when its parser gives none. */
  datatype Entry = Entry(name: string, signature: string, regexSignature: Option<string>, line: int, endLine: int)

  datatype Function = Function(name: string, signature: string, startLine: int, endLine: int, body: string)

  /** The first lines of an entry show an open brace. */
  predicate BraceNear(lines: seq<string>, start: int)
    requires 1 <= start
  {
    exists i :: start - 1 <= i < start + 9 && i < |lines| && '{' in lines[i]
  }

  /** `end` is the end line of the entry: its own, or the one that the scanner finds. */
  ghost predicate EndOf(lines: seq<string>, e: Entry, end: int) {
    if e.endLine != 0 && e.endLine >= e.line then end == e.endLine else IsFunctionEnd(lines, e.line, end)
  }

  /** `f` is the record of the entry. */
  ghost predicate Extracted(lines: seq<string>, e: Entry, f: Function) {
    && 1 <= e.line == f.startLine <= |lines|
    && f.name == e.name
    && f.signature == (if e.regexSignature.Some? then e.regexSignature.value
                       else if e.signature == "" then e.name else e.signature)
    && EndOf(lines, e, f.endLine)
    && (if f.endLine > 0
        then f.startLine <= f.endLine && f.body == R2Script.Body(lines, f.startLine, f.endLine)
        else BraceNear(lines, f.startLine) && f.body == R2Script.Body(lines, f.startLine, f.startLine - 1 + 150))
  }

  /** The entry has a record: it starts inside the file, and ends or opens a brace soon. */
  ghost predicate Kept(lines: seq<string>, e: Entry) {
    exists f :: Extracted(lines, e, f)
  }

  /** What a record says: the name, the line and the signature of its entry, and its end where the parser
      gives a usable one. */
  lemma RecordSays(lines: seq<string>, e: Entry, f: Function)
    requires Extracted(lines, e, f)
    ensures f.name == e.name && f.startLine == e.line
    ensures e.regexSignature.Some? ==> f.signature == e.regexSignature.value
    ensures e.regexSignature.None? ==> f.signature == if e.signature == "" then e.name else e.signature
    ensures e.endLine >= e.line ==> f.endLine == e.endLine
    ensures e.endLine < e.line ==> IsFunctionEnd(lines, e.line, f.endLine)
  {
  }

  /** An entry has a record if and only if it starts inside the file and its end is known or can be found, or
      one of its first ten lines holds an open brace. */
  lemma KeptIff(lines: seq<string>, e: Entry)
    ensures Kept(lines, e) <==>
      && 1 <= e.line <= |lines|
      && (|| e.endLine >= e.line
          || HasEnd(Text(Window(lines, e.line)))
          || exists i :: e.line - 1 <= i < e.line + 9 && i < |lines| && '{' in lines[i])
  {
    if f: Function :| Extracted(lines, e, f) {
      if e.endLine < e.line && f.endLine > 0 { FirstEndIsUnique(Window(lines, e.line), f.endLine - e.line, f.endLine - e.line); }
    }
    if 1 <= e.line <= |lines| {
      var end := AnEnd(lines, e);
      var signature := if e.regexSignature.Some? then e.regexSignature.value else if e.signature == "" then e.name else e.signature;
      var last := if end > 0 then end else e.line - 1 + 150;
      assert end > 0 || BraceNear(lines, e.line) ==>
        Extracted(lines, e, Function(e.name, signature, e.line, end, R2Script.Body(lines, e.line, last)));
    }
  }

  lemma AnEnd(lines: seq<string>, e: Entry) returns (end: int)
    requires 1 <= e.line <= |lines|
    ensures EndOf(lines, e, end) && (end == 0 || end >= e.line)
    ensures end == 0 <==> e.endLine < e.line && !HasEnd(Text(Window(lines, e.line)))
  {
    if e.endLine >= e.line {
      end := e.endLine;
    } else {
      end := EndExists(lines, e.line);
    }
  }

  lemma RecordIsUnique(lines: seq<string>, e: Entry, f: Function, g: Function)
    requires Extracted(lines, e, f) && Extracted(lines, e, g)
    ensures f == g
  {
    if !(e.endLine != 0 && e.endLine >= e.line) { FunctionEndIsUnique(lines, e.line, f.endLine, g.endLine); }
  }

  /** One turn of the assembly loop. */
  method ExtractOne(lines: seq<string>, e: Entry) returns (f: Option<Function>)
    ensures f.Some? ==> Extracted(lines, e, f.value)
    ensures f.None? ==> !Kept(lines, e)
  {
    if e.line <= 0 || e.line > |lines| { return None; }
    var signature := if e.signature == "" then e.name else e.signature;
    if e.regexSignature.Some? { signature := e.regexSignature.value; }
    var end := e.endLine;
    if end == 0 || end < e.line { end := FindFunctionEnd(lines, e.line); }
    if end > 0 && end >= e.line {
      return Some(Function(e.name, signature, e.line, end, R2Script.Body(lines, e.line, end)));
    }
    var scanEnd := if e.line + 9 < |lines| then e.line + 9 else |lines|;
    var i := e.line - 1;
    while i < scanEnd && '{' !in lines[i]
      invariant e.line - 1 <= i <= scanEnd
      invariant forall j :: e.line - 1 <= j < i ==> '{' !in lines[j]
    {
      i := i + 1;
    }
    if i < scanEnd {
      return Some(Function(e.name, signature, e.line, end, R2Script.Body(lines, e.line, e.line - 1 + 150)));
    }
    if f: Function :| Extracted(lines, e, f) {
      if !(e.endLine != 0 && e.endLine >= e.line) { FunctionEndIsUnique(lines, e.line, f.endLine, end); }
    }
    return None;
  }

  predicate Taken(entries: seq<Entry>, line: int) {
    exists e :: e in entries && e.line == line
  }

  /** The macro entries on whose line there is no raw entry and no earlier macro, in order. */
  function NewLines(raw: seq<Entry>, macros: seq<Entry>): seq<Entry> {
    if macros == [] then []
    else
      var earlier, m := macros[..|macros| - 1], macros[|macros| - 1];
      NewLines(raw, earlier) + (if Taken(raw, m.line) || Taken(earlier, m.line) then [] else [m])
  }

  lemma TakenSnoc(entries: seq<Entry>, e: Entry, line: int)
    ensures Taken(entries + [e], line) <==> Taken(entries, line) || e.line == line
  {
    assert forall x :: x in entries + [e] <==> x in entries || x == e;
  }

  /** The macro entries join behind the raw ones unless their line is taken. */
  method MergeMacros(raw: seq<Entry>, macros: seq<Entry>) returns (entries: seq<Entry>)
    ensures entries == raw + NewLines(raw, macros)
  {
    entries := raw;
    var existing := set e | e in raw :: e.line;
    for i := 0 to |macros|
      invariant entries == raw + NewLines(raw, macros[..i])
      invariant forall line :: line in existing <==> Taken(raw, line) || Taken(macros[..i], line)
    {
      var m := macros[i];
      assert macros[..i + 1] == macros[..i] + [m] && macros[..i + 1][..i] == macros[..i];
      forall line ensures Taken(macros[..i + 1], line) <==> Taken(macros[..i], line) || m.line == line {
        TakenSnoc(macros[..i], m, line);
      }
      if m.line !in existing {
        entries, existing := entries + [m], existing + {m.line};
      }
    }
    assert macros[..|macros|] == macros;
  }

  lemma {:induction false} NoLineTwice(raw: seq<Entry>, macros: seq<Entry>)
    ensures forall e :: e in NewLines(raw, macros) ==> e in macros && !Taken(raw, e.line)
    ensures forall i, j :: 0 <= i < j < |NewLines(raw, macros)| ==> NewLines(raw, macros)[i].line != NewLines(raw, macros)[j].line
    ensures forall line :: Taken(macros, line) && !Taken(raw, line) ==> Taken(NewLines(raw, macros), line)
    ensures forall i :: 0 <= i < |macros| && !Taken(raw, macros[i].line) && !Taken(macros[..i], macros[i].line) ==>
              macros[i] in NewLines(raw, macros)
  {
    if macros != [] {
      var earlier, m := macros[..|macros| - 1], macros[|macros| - 1];
      NoLineTwice(raw, earlier);
      var before := NewLines(raw, earlier);
      assert macros == earlier + [m];
      assert forall i :: 0 <= i < |earlier| ==> earlier[..i] == macros[..i] && earlier[i] == macros[i];
      forall line ensures Taken(macros, line) <==> Taken(earlier, line) || m.line == line {
        TakenSnoc(earlier, m, line);
      }
      if !Taken(raw, m.line) && !Taken(earlier, m.line) {
        forall line ensures Taken(before + [m], line) <==> Taken(before, line) || m.line == line {
          TakenSnoc(before, m, line);
        }
        forall i | 0 <= i < |before| ensures before[i].line != m.line {
          assert before[i] in before;
        }
      }
    }
  }

  /** `fs` holds the record of each entry that has one, in order. */
  ghost predicate Assembled(lines: seq<string>, es: seq<Entry>, fs: seq<Function>) {
    if es == [] then fs == []
    else
      var front, e := es[..|es| - 1], es[|es| - 1];
      if Kept(lines, e) then fs != [] && Extracted(lines, e, fs[|fs| - 1]) && Assembled(lines, front, fs[..|fs| - 1])
      else Assembled(lines, front, fs)
  }

  /** `fs` holds the records of the first `n` entries. */
  ghost predicate AssembledTo(lines: seq<string>, es: seq<Entry>, n: nat, fs: seq<Function>) {
    n <= |es| && exists front :: front == es[..n] && Assembled(lines, front, fs)
  }

  lemma AddRecord(lines: seq<string>, es: seq<Entry>, n: nat, fs: seq<Function>, f: Option<Function>)
    requires AssembledTo(lines, es, n, fs) && n < |es|
    requires if f.Some? then Extracted(lines, es[n], f.value) else !Kept(lines, es[n])
    ensures AssembledTo(lines, es, n + 1, if f.Some? then fs + [f.value] else fs)
  {
    assert es[..n + 1][..n] == es[..n];
    if f.Some? {
      assert (fs + [f.value])[..|fs|] == fs;
      assert Assembled(lines, es[..n + 1], fs + [f.value]);
    } else {
      assert Assembled(lines, es[..n + 1], fs);
    }
  }

  method Assemble(lines: seq<string>, es: seq<Entry>) returns (fs: seq<Function>)
    ensures Assembled(lines, es, fs)
  {
    fs := [];
    assert Assembled(lines, es[..0], fs);
    for i := 0 to |es|
      invariant AssembledTo(lines, es, i, fs)
    {
      var f := ExtractOne(lines, es[i]);
      AddRecord(lines, es, i, fs, f);
      if f.Some? { fs := fs + [f.value]; }
    }
    assert es[..|es|] == es;
  }

  function StartsOn(line: int): Function -> bool {
    (f: Function) => f.startLine == line
  }

  /** The records that start on `line`, in order. */
  function WithStart(fs: seq<Function>, line: int): seq<Function> {
    StableSort.Filter(fs, StartsOn(line))
  }

  predicate NotAfter(f: Function, g: Function) {
    f.startLine <= g.startLine
  }

  predicate Ascending(fs: seq<Function>) {
    forall i, j :: 0 <= i < j < |fs| ==> fs[i].startLine <= fs[j].startLine
  }

  predicate StrictlyAscending(fs: seq<Function>) {
    forall i, j :: 0 <= i < j < |fs| ==> fs[i].startLine < fs[j].startLine
  }

  function SortByStart(fs: seq<Function>): seq<Function> {
    StableSort.Sort(fs, NotAfter)
  }

  /** Sorting orders the lines and keeps the order within each. */
  lemma SortByStartIs(fs: seq<Function>)
    ensures Ascending(SortByStart(fs))
    ensures forall line :: WithStart(SortByStart(fs), line) == WithStart(fs, line)
    ensures forall f :: f in SortByStart(fs) <==> f in fs
  {
    assert StableSort.TotalPreorder(NotAfter);
    StableSort.SortSorts(fs, NotAfter);
    StableSort.SortMembers(fs, NotAfter);
    forall line ensures WithStart(SortByStart(fs), line) == WithStart(fs, line) {
      StableSort.SortIsStable(fs, NotAfter, StartsOn(line));
    }
  }

  lemma {:induction false} FirstWithStart(fs: seq<Function>, i: nat)
    requires i < |fs| && forall j :: 0 <= j < i ==> fs[j].startLine != fs[i].startLine
    ensures WithStart(fs, fs[i].startLine) != [] && WithStart(fs, fs[i].startLine)[0] == fs[i]
  {
    if i > 0 { FirstWithStart(fs[1..], i - 1); }
  }

  /** `f` is the first record of its line. */
  ghost predicate IsFirst(all: seq<Function>, f: Function) {
    WithStart(all, f.startLine) != [] && f == WithStart(all, f.startLine)[0]
  }

  ghost predicate Covers(fs: seq<Function>, line: int) {
    exists f :: f in fs && f.startLine == line
  }

  lemma CoversMore(fs: seq<Function>, f: Function, line: int)
    ensures Covers(fs + [f], line) <==> Covers(fs, line) || f.startLine == line
  {
    assert forall g :: g in fs + [f] <==> g in fs || g == f;
  }

  /** `fs` is the first record of each line of `all`, by line. */
  ghost predicate FirstPerLine(all: seq<Function>, fs: seq<Function>) {
    && StrictlyAscending(fs)
    && (forall f :: f in fs ==> IsFirst(all, f))
    && (forall g :: g in all ==> Covers(fs, g.startLine))
  }

  /** The last loop: the first record of each line of the sorted list stays. */
  method Deduplicate(sorted: seq<Function>) returns (fs: seq<Function>)
    requires Ascending(sorted)
    ensures FirstPerLine(sorted, fs)
  {
    fs := [];
    var seen: set<int> := {};
    for i := 0 to |sorted|
      invariant StrictlyAscending(fs)
      invariant forall j :: 0 <= j < i ==> sorted[j].startLine in seen
      invariant forall line :: line in seen <==> Covers(fs, line)
      invariant forall f :: f in fs ==> IsFirst(sorted, f)
      invariant forall k, j :: 0 <= k < |fs| && i <= j < |sorted| ==> fs[k].startLine <= sorted[j].startLine
    {
      var f := sorted[i];
      if f.startLine !in seen {
        FirstWithStart(sorted, i);
        forall k | 0 <= k < |fs| ensures fs[k].startLine < f.startLine {
          assert fs[k] in fs && Covers(fs, fs[k].startLine);
        }
        forall line ensures Covers(fs + [f], line) <==> Covers(fs, line) || f.startLine == line {
          CoversMore(fs, f, line);
        }
        fs, seen := fs + [f], seen + {f.startLine};
      }
    }
  }

  /** Entry `i` is the first of its line that has a record, and that is `f`. */
  ghost predicate FirstKept(lines: seq<string>, es: seq<Entry>, i: int, f: Function) {
    0 <= i < |es| && Extracted(lines, es[i], f) && forall j :: 0 <= j < i && es[j].line == es[i].line ==> !Kept(lines, es[j])
  }

  /** `f` is the record of the first entry of its line that has one. */
  ghost predicate FromFirst(lines: seq<string>, es: seq<Entry>, f: Function) {
    exists i :: FirstKept(lines, es, i, f)
  }

  ghost predicate NoneKept(lines: seq<string>, es: seq<Entry>, line: int) {
    forall e :: e in es && e.line == line ==> !Kept(lines, e)
  }

  lemma FromFirstSnoc(lines: seq<string>, es: seq<Entry>, e: Entry, f: Function)
    ensures FromFirst(lines, es, f) ==> FromFirst(lines, es + [e], f)
    ensures NoneKept(lines, es, e.line) && Extracted(lines, e, f) ==> FromFirst(lines, es + [e], f)
  {
    if i :| FirstKept(lines, es, i, f) {
      assert FirstKept(lines, es + [e], i, f);
    }
    if NoneKept(lines, es, e.line) && Extracted(lines, e, f) {
      assert FirstKept(lines, es + [e], |es|, f);
    }
  }

  lemma NoneKeptSnoc(lines: seq<string>, es: seq<Entry>, e: Entry, line: int)
    ensures NoneKept(lines, es + [e], line) <==> NoneKept(lines, es, line) && !(e.line == line && Kept(lines, e))
  {
    assert forall x :: x in es + [e] <==> x in es || x == e;
  }

  /** `rs`, the records of a line, start with that of the first entry that has one. */
  ghost predicate StartsRight(lines: seq<string>, es: seq<Entry>, rs: seq<Function>, line: int) {
    if rs == [] then NoneKept(lines, es, line) else FromFirst(lines, es, rs[0])
  }

  lemma AddDropped(lines: seq<string>, es: seq<Entry>, e: Entry, rs: seq<Function>, line: int)
    requires StartsRight(lines, es, rs, line) && !Kept(lines, e)
    ensures StartsRight(lines, es + [e], rs, line)
  {
    if rs == [] {
      NoneKeptSnoc(lines, es, e, line);
    } else {
      FromFirstSnoc(lines, es, e, rs[0]);
    }
  }

  lemma AddKept(lines: seq<string>, es: seq<Entry>, e: Entry, f: Function, rs: seq<Function>, line: int)
    requires StartsRight(lines, es, rs, line) && Extracted(lines, e, f)
    ensures StartsRight(lines, es + [e], rs + (if f.startLine == line then [f] else []), line)
  {
    if rs != [] {
      FromFirstSnoc(lines, es, e, rs[0]);
    } else if f.startLine == line {
      FromFirstSnoc(lines, es, e, f);
    } else {
      NoneKeptSnoc(lines, es, e, line);
    }
  }

  lemma LastRecord(lines: seq<string>, front: seq<Entry>, e: Entry, fs: seq<Function>)
    returns (before: seq<Function>, f: Option<Function>)
    requires Assembled(lines, front + [e], fs)
    ensures Assembled(lines, front, before)
    ensures f.None? ==> !Kept(lines, e) && fs == before
    ensures f.Some? ==> Extracted(lines, e, f.value) && fs == before + [f.value]
  {
    assert (front + [e])[..|front|] == front;
    if Kept(lines, e) {
      before, f := fs[..|fs| - 1], Some(fs[|fs| - 1]);
    } else {
      before, f := fs, None;
    }
  }

  /** The first record of a line comes from the first entry of that line that has one. */
  lemma {:induction false} FirstRecord(lines: seq<string>, es: seq<Entry>, fs: seq<Function>, line: int)
    requires Assembled(lines, es, fs)
    ensures StartsRight(lines, es, WithStart(fs, line), line)
    decreases |es|
  {
    if es != [] {
      var front, e := es[..|es| - 1], es[|es| - 1];
      assert es == front + [e];
      var before, f := LastRecord(lines, front, e, fs);
      FirstRecord(lines, front, before, line);
      if f.Some? {
        StableSort.FilterSnoc(before, f.value, StartsOn(line));
        AddKept(lines, front, e, f.value, WithStart(before, line), line);
      } else {
        AddDropped(lines, front, e, WithStart(fs, line), line);
      }
    }
  }

  /** A record passes the fast check exactly when its end line is known and inside the file. */
  lemma PassesIffEndKnown(lines: seq<string>, es: seq<Entry>, f: Function)
    requires FromFirst(lines, es, f)
    ensures 1 <= f.startLine <= |lines|
    ensures R2Script.Validate(f.startLine, f.endLine, f.body, lines).Pass? <==> 0 < f.endLine <= |lines|
  {
  }

  /** The body of a record is its lines as far as the file goes: up to its end, or up to 150 lines where
      no end is known. */
  lemma BodyIsLines(lines: seq<string>, es: seq<Entry>, f: Function)
    requires FromFirst(lines, es, f)
    ensures f.endLine >= 0 && 1 <= f.startLine <= |lines|
    ensures var last := if f.endLine > 0 then f.endLine else f.startLine + 149;
            f.body == PythonText.Join(lines[f.startLine - 1..if last < |lines| then last else |lines|])
  {
  }

  /** `fs` is the outcome of the extraction. */
  ghost predicate Outcome(lines: seq<string>, es: seq<Entry>, fs: seq<Function>) {
    && StrictlyAscending(fs)
    && (forall f :: f in fs ==> FromFirst(lines, es, f))
    && (forall line :: NoneKept(lines, es, line) || Covers(fs, line))
  }

  lemma OutcomeHolds(lines: seq<string>, es: seq<Entry>, all: seq<Function>, fs: seq<Function>)
    requires Assembled(lines, es, all) && FirstPerLine(SortByStart(all), fs)
    ensures Outcome(lines, es, fs)
  {
    SortByStartIs(all);
    forall f | f in fs ensures FromFirst(lines, es, f) {
      FirstRecord(lines, es, all, f.startLine);
    }
    forall line ensures NoneKept(lines, es, line) || Covers(fs, line) {
      FirstRecord(lines, es, all, line);
      if WithStart(all, line) != [] { SomeWithStart(all, line); }
    }
  }

  lemma {:induction false} SomeWithStart(fs: seq<Function>, line: int)
    requires WithStart(fs, line) != []
    ensures exists f :: f in fs && f.startLine == line
  {
    if fs[0].startLine != line { SomeWithStart(fs[1..], line); }
  }

  /** extract_functions_static, from the raw entries on. */
  method ExtractFunctions(lines: seq<string>, raw: seq<Entry>, macros: seq<Entry>) returns (fs: seq<Function>)
    ensures Outcome(lines, raw + NewLines(raw, macros), fs)
    ensures forall i, j :: 0 <= i < j < |fs| ==> fs[i].startLine < fs[j].startLine
  {
    var entries := MergeMacros(raw, macros);
    var results := Assemble(lines, entries);
    SortByStartIs(results);
    fs := Deduplicate(SortByStart(results));
    OutcomeHolds(lines, entries, results, fs);
  }
}
