/** The all-parallel pipeline of `run` in `app/pipeline/engine.py`: a barrier whose amount of work
    is discovered while the work is already finishing.

    One step is what a coroutine does between two suspension points.  Files and functions are
    numbered; stage results, and the moment of cancellation, are free choices of the environment.
 */
module Scheduler {

  /** `Skipped`: the file pipeline returned at its first cancellation check. */
  datatype FilePhase = Fresh | Ready | InR1 | Settled | Skipped

  /** `Dropped`: discovered, but returned at a cancellation check before R2 without being counted. */
  datatype FuncPhase = Spawned | Queued | InR2 | InR3 | AwaitCC | InR4 | Finished | Dropped

  datatype CCPhase = Waiting | Running | Done

  datatype State = State(
    files: seq<FilePhase>, funcs: seq<FuncPhase>, cc: CCPhase, cancelled: bool,
    totalFuncs: int, r1Done: int, r2Done: int, allR1Done: bool, allR2Done: bool, ccDone: bool,
    r1Free: int, r2Free: int)

  datatype Step =
    | BeginFile(f: nat)
    | EnterR1(f: nat)
    | LeaveR1(f: nat, found: nat)       // R1 settles with `found` functions; none if it failed
    | BeginFunc(g: nat, known: bool)    // `known`: the function is present in the saved state
    | EnterR2(g: nat)
    | LeaveR2(g: nat, passed: bool)
    | LeaveR3(g: nat)
    | PassCC(g: nat)
    | FinishR4(g: nat)
    | StartCC
    | EndCC
    | Cancel

  function AtLeastOne(n: int): int { if n < 1 then 1 else n }

  function Init(files: nat, r1: int, r2: int): State {
    State(seq(files, i => Fresh), [], Waiting, false, 0, 0, 0, false, files == 0, false, AtLeastOne(r1), AtLeastOne(r2))
  }

  // ---- the nested functions of run ----

  function MaybeSetAllR2Done(s: State): (s': State)
    ensures s' == s.(allR2Done := s.allR2Done || (s.allR1Done && s.r2Done >= s.totalFuncs))
  {
    if s.allR1Done && s.r2Done >= s.totalFuncs then s.(allR2Done := true) else s
  }

  function OnR1Done(s: State, found: nat): (s': State)
    ensures s'.files == s.files && s'.funcs == s.funcs && s'.cc == s.cc && s'.cancelled == s.cancelled
  {
    var s1 := s.(totalFuncs := s.totalFuncs + found, r1Done := s.r1Done + 1);
    if s1.r1Done == |s1.files| then MaybeSetAllR2Done(s1.(allR1Done := true)) else s1
  }

  function CountR2(s: State): State {
    MaybeSetAllR2Done(s.(r2Done := s.r2Done + 1))
  }

  function SetFile(s: State, f: nat, p: FilePhase): State
    requires f < |s.files|
  {
    s.(files := s.files[f := p])
  }

  function SetFunc(s: State, g: nat, p: FuncPhase): State
    requires g < |s.funcs|
  {
    s.(funcs := s.funcs[g := p])
  }

  // ---- the steps ----

  predicate FileIs(s: State, f: nat, p: FilePhase) { f < |s.files| && s.files[f] == p }

  predicate FuncIs(s: State, g: nat, p: FuncPhase) { g < |s.funcs| && s.funcs[g] == p }

  predicate Enabled(s: State, step: Step) {
    match step
    case BeginFile(f) => FileIs(s, f, Fresh)
    case EnterR1(f) => FileIs(s, f, Ready) && s.r1Free > 0
    case LeaveR1(f, _) => FileIs(s, f, InR1)
    case BeginFunc(g, _) => FuncIs(s, g, Spawned)
    case EnterR2(g) => FuncIs(s, g, Queued) && s.r2Free > 0
    case LeaveR2(g, _) => FuncIs(s, g, InR2)
    case LeaveR3(g) => FuncIs(s, g, InR3)
    case PassCC(g) => FuncIs(s, g, AwaitCC) && s.ccDone
    case FinishR4(g) => FuncIs(s, g, InR4)
    case StartCC => s.cc == Waiting && s.allR2Done
    case EndCC => s.cc == Running
    case Cancel => !s.cancelled
  }

  function BeginFileStep(s: State, f: nat): State
    requires f < |s.files|
  {
    SetFile(s, f, if s.cancelled then Skipped else Ready)
  }

  function LeaveR1Step(s: State, f: nat, found: nat): (s': State)
    requires f < |s.files|
    ensures |s'.files| == |s.files| && s'.cc == s.cc && s'.cancelled == s.cancelled
  {
    var s1 := SetFile(s, f, Settled).(r1Free := s.r1Free + 1);
    OnR1Done(s1.(funcs := s1.funcs + seq(found, i => if s.cancelled then Dropped else Spawned)), found)
  }

  function BeginFuncStep(s: State, g: nat, known: bool): State
    requires g < |s.funcs|
  {
    if s.cancelled then SetFunc(s, g, Dropped)
    else if !known then CountR2(SetFunc(s, g, Finished))
    else SetFunc(s, g, Queued)
  }

  function LeaveR2Step(s: State, g: nat, passed: bool): State
    requires g < |s.funcs|
  {
    CountR2(SetFunc(s, g, if s.cancelled || !passed then Finished else InR3)).(r2Free := s.r2Free + 1)
  }

  function Apply(s: State, step: Step): State
    requires Enabled(s, step)
  {
    match step
    case BeginFile(f) => BeginFileStep(s, f)
    case EnterR1(f) => SetFile(s, f, InR1).(r1Free := s.r1Free - 1)
    case LeaveR1(f, found) => LeaveR1Step(s, f, found)
    case BeginFunc(g, known) => BeginFuncStep(s, g, known)
    case EnterR2(g) => SetFunc(s, g, InR2).(r2Free := s.r2Free - 1)
    case LeaveR2(g, passed) => LeaveR2Step(s, g, passed)
    case LeaveR3(g) => SetFunc(s, g, if s.cancelled then Finished else AwaitCC)
    case PassCC(g) => SetFunc(s, g, if s.cancelled then Finished else InR4)
    case FinishR4(g) => SetFunc(s, g, Finished)
    case StartCC => if s.cancelled then s.(cc := Done, ccDone := true) else s.(cc := Running)
    case EndCC => s.(cc := Done, ccDone := true)
    case Cancel => s.(cancelled := true)
  }

  // ---- counting ----

  function CountIn<T(==)>(s: seq<T>, these: set<T>): (n: nat)
    ensures n <= |s|
  {
    if s == [] then 0 else CountIn(s[..|s| - 1], these) + (if s[|s| - 1] in these then 1 else 0)
  }

  /** The count is the number of positions. */
  lemma {:induction false} CountIsCardinality<T>(s: seq<T>, these: set<T>)
    ensures CountIn(s, these) == |set i | 0 <= i < |s| && s[i] in these|
  {
    var all := set i | 0 <= i < |s| && s[i] in these;
    if s == [] {
      assert all == {};
    } else {
      var n := |s| - 1;
      CountIsCardinality(s[..n], these);
      var before := set i | 0 <= i < n && s[..n][i] in these;
      assert all == before + (if s[n] in these then {n} else {});
    }
  }

  lemma {:induction false} CountUpdate<T>(s: seq<T>, these: set<T>, i: nat, x: T)
    requires i < |s|
    ensures CountIn(s[i := x], these)
         == CountIn(s, these) - (if s[i] in these then 1 else 0) + (if x in these then 1 else 0)
  {
    var t := s[i := x];
    if i == |s| - 1 {
      assert t[..|t| - 1] == s[..|s| - 1];
    } else {
      CountUpdate(s[..|s| - 1], these, i, x);
      assert t[..|t| - 1] == s[..|s| - 1][i := x];
    }
  }

  lemma {:induction false} CountAppend<T>(s: seq<T>, these: set<T>, n: nat, x: T)
    ensures CountIn(s + seq(n, i => x), these) == CountIn(s, these) + (if x in these then n else 0)
    decreases n
  {
    var t := s + seq(n, i => x);
    if n > 0 {
      CountAppend(s, these, n - 1, x);
      assert t[..|t| - 1] == s + seq(n - 1, i => x);
    } else {
      assert t == s;
    }
  }

  lemma {:induction false} CountAll<T>(s: seq<T>, these: set<T>)
    ensures CountIn(s, these) == |s| <==> forall i :: 0 <= i < |s| ==> s[i] in these
  {
    if s != [] {
      CountAll(s[..|s| - 1], these);
      assert forall i :: 0 <= i < |s| - 1 ==> s[..|s| - 1][i] == s[i];
    }
  }

  lemma {:induction false} CountNone<T>(s: seq<T>, these: set<T>)
    requires CountIn(s, these) > 0
    ensures exists i :: 0 <= i < |s| && s[i] in these
  {
    if s[|s| - 1] !in these {
      CountNone(s[..|s| - 1], these);
      var i :| 0 <= i < |s| - 1 && s[..|s| - 1][i] in these;
      assert s[i] in these;
    }
  }

  // ---- the invariant ----

  const COUNTED: set<FuncPhase> := {InR3, AwaitCC, InR4, Finished}

  ghost predicate AllSettled(s: State) {
    forall f :: 0 <= f < |s.files| ==> s.files[f] == Settled
  }

  ghost predicate AllCounted(s: State) {
    forall g :: 0 <= g < |s.funcs| ==> s.funcs[g] in COUNTED
  }

  ghost predicate Counters(s: State) {
    && s.totalFuncs == |s.funcs|
    && s.r1Done == CountIn(s.files, {Settled})
    && s.r2Done == CountIn(s.funcs, COUNTED)
    && (s.allR1Done <==> s.r1Done == |s.files| && |s.files| > 0)
    && (s.allR2Done <==> s.r1Done == |s.files| && s.r2Done == |s.funcs|)
  }

  /** A permit is out exactly while a file is in R1 or a function is in R2. */
  ghost predicate Permits(s: State, r1: int, r2: int) {
    && s.r1Free >= 0 && s.r1Free + CountIn(s.files, {InR1}) == r1
    && s.r2Free >= 0 && s.r2Free + CountIn(s.funcs, {InR2}) == r2
  }

  ghost predicate Gates(s: State) {
    && (s.ccDone <==> s.cc == Done)
    && (s.cc != Waiting ==> s.allR2Done)
    && (forall g :: 0 <= g < |s.funcs| && s.funcs[g] == InR4 ==> s.ccDone)
    && (!s.cancelled ==> forall f :: 0 <= f < |s.files| ==> s.files[f] != Skipped)
    && (!s.cancelled ==> forall g :: 0 <= g < |s.funcs| ==> s.funcs[g] != Dropped)
    && (s.files == [] ==> s.funcs == [])
  }

  ghost predicate Inv(s: State, r1: int, r2: int) {
    Counters(s) && Permits(s, r1, r2) && Gates(s)
  }
}
