/** Safety, deadlock freedom and termination of the pipeline scheduler, over every interleaving. */
module SchedulerInvariants {
  import opened Scheduler

  lemma BarrierState(s: State, r1: int, r2: int)
    requires Inv(s, r1, r2)
    ensures s.allR2Done <==> AllSettled(s) && AllCounted(s)
  {
    CountAll(s.files, {Settled});
    CountAll(s.funcs, COUNTED);
    assert CountIn(s.files, {Settled}) <= |s.files| && CountIn(s.funcs, COUNTED) <= |s.funcs|;
  }

  lemma FuncMoves(s: State, g: nat, p: FuncPhase)
    requires g < |s.funcs|
    ensures CountIn(s.funcs[g := p], COUNTED) == CountIn(s.funcs, COUNTED)
              - (if s.funcs[g] in COUNTED then 1 else 0) + (if p in COUNTED then 1 else 0)
    ensures CountIn(s.funcs[g := p], {InR2}) == CountIn(s.funcs, {InR2})
              - (if s.funcs[g] == InR2 then 1 else 0) + (if p == InR2 then 1 else 0)
  {
    CountUpdate(s.funcs, COUNTED, g, p);
    CountUpdate(s.funcs, {InR2}, g, p);
  }

  lemma FileMoves(s: State, f: nat, p: FilePhase)
    requires f < |s.files|
    ensures CountIn(s.files[f := p], {Settled}) == CountIn(s.files, {Settled})
              - (if s.files[f] == Settled then 1 else 0) + (if p == Settled then 1 else 0)
    ensures CountIn(s.files[f := p], {InR1}) == CountIn(s.files, {InR1})
              - (if s.files[f] == InR1 then 1 else 0) + (if p == InR1 then 1 else 0)
  {
    CountUpdate(s.files, {Settled}, f, p);
    CountUpdate(s.files, {InR1}, f, p);
  }

  lemma FileStepKeeps(s: State, r1: int, r2: int, step: Step)
    requires Inv(s, r1, r2) && Enabled(s, step) && (step.BeginFile? || step.EnterR1?)
    ensures Inv(Apply(s, step), r1, r2)
  {
    FileMoves(s, step.f, Apply(s, step).files[step.f]);
  }

  lemma LeaveR1Counters(s: State, r1: int, r2: int, f: nat, found: nat)
    requires Inv(s, r1, r2) && FileIs(s, f, InR1)
    ensures var s' := LeaveR1Step(s, f, found); Counters(s') && Permits(s', r1, r2)
  {
    var p := if s.cancelled then Dropped else Spawned;
    LeaveR1Shape(s, f, found);
    assert seq(found, i => if s.cancelled then Dropped else Spawned) == seq(found, i => p);
    FileMoves(s, f, Settled);
    CountAppend(s.funcs, COUNTED, found, p);
    CountAppend(s.funcs, {InR2}, found, p);
    assert CountIn(s.files[f := Settled], {Settled}) <= |s.files|;
  }

  lemma LeaveR1Keeps(s: State, r1: int, r2: int, f: nat, found: nat)
    requires Inv(s, r1, r2) && FileIs(s, f, InR1)
    ensures Inv(LeaveR1Step(s, f, found), r1, r2)
  {
    LeaveR1Counters(s, r1, r2, f, found);
    BarrierState(s, r1, r2);
    assert !s.allR2Done;
  }

  /** A function whose count towards the barrier does not change. */
  lemma UncountedMoveKeeps(s: State, r1: int, r2: int, step: Step)
    requires Inv(s, r1, r2) && Enabled(s, step)
    requires step.EnterR2? || step.LeaveR3? || step.PassCC? || step.FinishR4?
    ensures Inv(Apply(s, step), r1, r2)
  {
    FuncMoves(s, step.g, Apply(s, step).funcs[step.g]);
  }

  lemma CountedFinish(s: State, r1: int, r2: int, g: nat)
    requires Inv(s, r1, r2) && FuncIs(s, g, Spawned)
    ensures Inv(CountR2(SetFunc(s, g, Finished)), r1, r2)
  {
    FuncMoves(s, g, Finished);
  }

  lemma BeginFuncKeeps(s: State, r1: int, r2: int, g: nat, known: bool)
    requires Inv(s, r1, r2) && FuncIs(s, g, Spawned)
    ensures Inv(BeginFuncStep(s, g, known), r1, r2)
  {
    if !s.cancelled && !known {
      CountedFinish(s, r1, r2, g);
    } else {
      FuncMoves(s, g, if s.cancelled then Dropped else Queued);
    }
  }

  lemma LeaveR2Keeps(s: State, r1: int, r2: int, g: nat, passed: bool)
    requires Inv(s, r1, r2) && FuncIs(s, g, InR2)
    ensures Inv(LeaveR2Step(s, g, passed), r1, r2)
  {
    FuncMoves(s, g, LeaveR2Step(s, g, passed).funcs[g]);
  }

  lemma StepKeepsInv(s: State, r1: int, r2: int, step: Step)
    requires Inv(s, r1, r2) && Enabled(s, step)
    ensures Inv(Apply(s, step), r1, r2)
  {
    match step
    case BeginFile(f) => FileStepKeeps(s, r1, r2, step);
    case EnterR1(f) => FileStepKeeps(s, r1, r2, step);
    case LeaveR1(f, found) => LeaveR1Keeps(s, r1, r2, f, found);
    case BeginFunc(g, known) => BeginFuncKeeps(s, r1, r2, g, known);
    case LeaveR2(g, passed) => LeaveR2Keeps(s, r1, r2, g, passed);
    case EnterR2(g) => UncountedMoveKeeps(s, r1, r2, step);
    case LeaveR3(g) => UncountedMoveKeeps(s, r1, r2, step);
    case PassCC(g) => UncountedMoveKeeps(s, r1, r2, step);
    case FinishR4(g) => UncountedMoveKeeps(s, r1, r2, step);
    case StartCC =>
    case EndCC =>
    case Cancel =>
  }

  lemma {:induction false} CountFresh(n: nat)
    ensures CountIn(seq(n, i => Fresh), {Settled}) == 0 && CountIn(seq(n, i => Fresh), {InR1}) == 0
  {
    var s: seq<FilePhase> := [];
    CountAppend(s, {Settled}, n, Fresh);
    CountAppend(s, {InR1}, n, Fresh);
    assert s + seq(n, i => Fresh) == seq(n, i => Fresh);
  }

  lemma InitInv(files: nat, r1: int, r2: int)
    ensures Inv(Init(files, r1, r2), AtLeastOne(r1), AtLeastOne(r2))
  {
    CountFresh(files);
  }

  // ---- runs ----

  datatype Run = Run(states: seq<State>, steps: seq<Step>)

  ghost predicate ValidRun(r: Run, files: nat, r1: int, r2: int) {
    && |r.states| == |r.steps| + 1 && r.states[0] == Init(files, r1, r2)
    && (forall i :: 0 <= i < |r.steps| ==> Enabled(r.states[i], r.steps[i]))
    && (forall i :: 0 <= i < |r.steps| ==> r.states[i + 1] == Apply(r.states[i], r.steps[i]))
  }

  lemma FilesFixed(s: State, step: Step)
    requires Enabled(s, step)
    ensures |Apply(s, step).files| == |s.files|
  {
  }

  lemma {:induction false} RunInv(r: Run, files: nat, r1: int, r2: int, i: nat)
    requires ValidRun(r, files, r1, r2) && i < |r.states|
    ensures Inv(r.states[i], AtLeastOne(r1), AtLeastOne(r2)) && |r.states[i].files| == files
    decreases i
  {
    if i == 0 {
      InitInv(files, r1, r2);
    } else {
      RunInv(r, files, r1, r2, i - 1);
      StepKeepsInv(r.states[i - 1], AtLeastOne(r1), AtLeastOne(r2), r.steps[i - 1]);
      FilesFixed(r.states[i - 1], r.steps[i - 1]);
    }
  }

  /** The barrier is exact in every state of every run: its event is set if and only if R1 of every
      file has settled and every function discovered so far has been counted out of R2.  The
      call-chain phase has started only after that, and R4 only after the call-chain phase. */
  lemma Barrier(r: Run, files: nat, r1: int, r2: int, i: nat)
    requires ValidRun(r, files, r1, r2) && i < |r.states|
    ensures var s := r.states[i];
            && (s.allR2Done <==> AllSettled(s) && AllCounted(s))
            && (s.cc != Waiting ==> AllSettled(s) && AllCounted(s))
            && (forall g :: FuncIs(s, g, InR4) ==> s.cc == Done)
  {
    RunInv(r, files, r1, r2, i);
    BarrierState(r.states[i], AtLeastOne(r1), AtLeastOne(r2));
  }

  /** The states that some run reaches. */
  ghost predicate Reachable(s: State, files: nat, r1: int, r2: int) {
    exists r :: ValidRun(r, files, r1, r2) && r.states[|r.steps|] == s
  }

  lemma ReachableInit(files: nat, r1: int, r2: int)
    ensures Reachable(Init(files, r1, r2), files, r1, r2)
  {
    assert ValidRun(Run([Init(files, r1, r2)], []), files, r1, r2);
  }

  lemma ReachableStep(s: State, step: Step, files: nat, r1: int, r2: int)
    requires Reachable(s, files, r1, r2) && Enabled(s, step)
    ensures Reachable(Apply(s, step), files, r1, r2)
  {
    var r :| ValidRun(r, files, r1, r2) && r.states[|r.steps|] == s;
    var next := Run(r.states + [Apply(s, step)], r.steps + [step]);
    forall i | 0 <= i < |next.steps|
      ensures Enabled(next.states[i], next.steps[i]) && next.states[i + 1] == Apply(next.states[i], next.steps[i])
    {
      if i < |r.steps| { assert Enabled(r.states[i], r.steps[i]) && r.states[i + 1] == Apply(r.states[i], r.steps[i]); }
    }
    assert ValidRun(next, files, r1, r2) && next.states[|next.steps|] == Apply(s, step);
  }

  lemma ReachableInv(s: State, files: nat, r1: int, r2: int)
    requires Reachable(s, files, r1, r2)
    ensures Inv(s, AtLeastOne(r1), AtLeastOne(r2)) && |s.files| == files
  {
    var r :| ValidRun(r, files, r1, r2) && r.states[|r.steps|] == s;
    RunInv(r, files, r1, r2, |r.steps|);
  }

  /** All work discovered so far is done. */
  ghost predicate WorkDone(s: State) {
    AllSettled(s) && AllCounted(s)
  }

  /** What a reachable state says about its counters, events and semaphores. */
  lemma ReachableFacts(s: State, files: nat, r1: int, r2: int)
    requires Reachable(s, files, r1, r2)
    ensures |s.files| == files && s.totalFuncs == |s.funcs|
    ensures s.r1Done == CountIn(s.files, {Settled}) <= files && s.r2Done == CountIn(s.funcs, COUNTED) <= |s.funcs|
    ensures s.allR1Done <==> s.r1Done == files && files > 0
    ensures s.allR2Done <==> s.r1Done == files && s.r2Done == |s.funcs|
    ensures s.allR2Done <==> WorkDone(s)
    ensures s.r1Free >= 0 && s.r1Free + CountIn(s.files, {InR1}) == if r1 >= 1 then r1 else 1
    ensures s.r2Free >= 0 && s.r2Free + CountIn(s.funcs, {InR2}) == if r2 >= 1 then r2 else 1
    ensures (s.cc != Waiting ==> s.allR2Done) && (s.ccDone <==> s.cc == Done)
    ensures forall g :: FuncIs(s, g, InR4) ==> s.ccDone
    ensures s.files == [] ==> s.funcs == []
  {
    ReachableInv(s, files, r1, r2);
    BarrierState(s, AtLeastOne(r1), AtLeastOne(r2));
  }

  lemma AfterBarrier(s: State, r1: int, r2: int, step: Step)
    requires Inv(s, r1, r2) && Enabled(s, step) && s.allR2Done
    ensures Apply(s, step).allR2Done && Apply(s, step).totalFuncs == s.totalFuncs
  {
    BarrierState(s, r1, r2);
  }

  /** Once the barrier has opened it stays open and nothing more is discovered. */
  lemma {:induction false} BarrierFinal(r: Run, files: nat, r1: int, r2: int, i: nat, j: nat)
    requires ValidRun(r, files, r1, r2) && i <= j < |r.states| && r.states[i].allR2Done
    ensures r.states[j].allR2Done && r.states[j].totalFuncs == r.states[i].totalFuncs
    decreases j
  {
    if i < j {
      BarrierFinal(r, files, r1, r2, i, j - 1);
      RunInv(r, files, r1, r2, j - 1);
      AfterBarrier(r.states[j - 1], AtLeastOne(r1), AtLeastOne(r2), r.steps[j - 1]);
    }
  }

  /** Permits are held only inside R1 and R2, never while waiting for the call-chain phase, and at
      most as many as the semaphores have. */
  lemma PermitsBounded(r: Run, files: nat, r1: int, r2: int, i: nat)
    requires ValidRun(r, files, r1, r2) && i < |r.states|
    ensures var s := r.states[i];
            && s.r1Free >= 0 && s.r1Free + CountIn(s.files, {InR1}) == (if r1 >= 1 then r1 else 1)
            && s.r2Free >= 0 && s.r2Free + CountIn(s.funcs, {InR2}) == (if r2 >= 1 then r2 else 1)
            && (r1 >= 1 ==> CountIn(s.files, {InR1}) <= r1) && (r2 >= 1 ==> CountIn(s.funcs, {InR2}) <= r2)
  {
    RunInv(r, files, r1, r2, i);
  }

  // ---- deadlock freedom ----

  /** Every coroutine has returned. */
  ghost predicate Returned(s: State) {
    && (forall f :: 0 <= f < |s.files| ==> s.files[f] == Settled || s.files[f] == Skipped)
    && (forall g :: 0 <= g < |s.funcs| ==> s.funcs[g] == Finished || s.funcs[g] == Dropped)
    && s.cc == Done
  }

  /** Nothing but a cancellation can happen any more. */
  ghost predicate Stuck(s: State) {
    forall step :: Enabled(s, step) ==> step.Cancel?
  }

  /** Some file or function returned early without being counted towards the barrier. */
  ghost predicate Uncounted(s: State) {
    || (exists f :: 0 <= f < |s.files| && s.files[f] == Skipped)
    || (exists g :: 0 <= g < |s.funcs| && s.funcs[g] == Dropped)
  }

  lemma StuckFiles(s: State, r1: int, r2: int, f: nat)
    requires Inv(s, r1, r2) && r1 >= 1 && Stuck(s) && f < |s.files|
    ensures s.files[f] == Settled || s.files[f] == Skipped
  {
    assert !Enabled(s, BeginFile(f)) && !Enabled(s, EnterR1(f)) && !Enabled(s, LeaveR1(f, 0));
    if s.files[f] == Ready {
      CountNone(s.files, {InR1});
      var h :| 0 <= h < |s.files| && s.files[h] in {InR1};
      assert Enabled(s, LeaveR1(h, 0));
    }
  }

  lemma StuckFuncs(s: State, r1: int, r2: int, g: nat)
    requires Inv(s, r1, r2) && r2 >= 1 && Stuck(s) && g < |s.funcs|
    ensures s.funcs[g] in {AwaitCC, Finished, Dropped} && (s.funcs[g] == AwaitCC ==> !s.ccDone)
  {
    assert !Enabled(s, BeginFunc(g, true)) && !Enabled(s, EnterR2(g)) && !Enabled(s, LeaveR2(g, true));
    assert !Enabled(s, LeaveR3(g)) && !Enabled(s, PassCC(g)) && !Enabled(s, FinishR4(g));
    if s.funcs[g] == Queued {
      CountNone(s.funcs, {InR2});
      var h :| 0 <= h < |s.funcs| && s.funcs[h] in {InR2};
      assert Enabled(s, LeaveR2(h, true));
    }
  }

  /** When does a run get stuck without returning?  Exactly when somebody returned early without
      being counted: then the barrier never opens and the call-chain phase waits forever. */
  lemma StuckReturnsIffAllCounted(r: Run, files: nat, r1: int, r2: int, i: nat)
    requires ValidRun(r, files, r1, r2) && i < |r.states| && Stuck(r.states[i])
    ensures Returned(r.states[i]) <==> !Uncounted(r.states[i])
  {
    var s := r.states[i];
    RunInv(r, files, r1, r2, i);
    BarrierState(s, AtLeastOne(r1), AtLeastOne(r2));
    if !Uncounted(s) {
      forall f | 0 <= f < |s.files| ensures s.files[f] == Settled {
        StuckFiles(s, AtLeastOne(r1), AtLeastOne(r2), f);
      }
      forall g | 0 <= g < |s.funcs| ensures s.funcs[g] in {AwaitCC, Finished} && (s.funcs[g] == AwaitCC ==> !s.ccDone) {
        StuckFuncs(s, AtLeastOne(r1), AtLeastOne(r2), g);
      }
      assert s.allR2Done;
      assert !Enabled(s, StartCC) && !Enabled(s, EndCC);
    }
    if Returned(s) {
      assert s.allR2Done && AllSettled(s) && AllCounted(s);
    }
  }

  /** An early return of a cancelled coroutine that skips its counter, as the source's own guards say. */
  predicate SkipsCounter(s: State, step: Step) {
    s.cancelled && (step.BeginFile? || step.BeginFunc? || (step.LeaveR1? && step.found > 0))
  }

  lemma FileStepUncounted(s: State, step: Step)
    requires Enabled(s, step) && (step.BeginFile? || step.EnterR1?)
    ensures Uncounted(Apply(s, step)) <==> Uncounted(s) || SkipsCounter(s, step)
  {
    var s', f := Apply(s, step), step.f;
    assert s'.files[f] == Skipped <==> SkipsCounter(s, step);
    assert forall h :: 0 <= h < |s.files| && h != f ==> s'.files[h] == s.files[h];
  }

  lemma LeaveR1Uncounted(s: State, f: nat, found: nat)
    requires FileIs(s, f, InR1)
    ensures Uncounted(LeaveR1Step(s, f, found)) <==> Uncounted(s) || SkipsCounter(s, LeaveR1(f, found))
  {
    var s', n := LeaveR1Step(s, f, found), |s.funcs|;
    LeaveR1Shape(s, f, found);
    assert forall h :: 0 <= h < |s.files| && h != f ==> s'.files[h] == s.files[h];
    assert forall g :: 0 <= g < n ==> s'.funcs[g] == s.funcs[g];
    assert forall g :: n <= g < n + found ==> s'.funcs[g] == if s.cancelled then Dropped else Spawned;
    if SkipsCounter(s, LeaveR1(f, found)) { assert s'.funcs[n] == Dropped; }
  }

  lemma FuncStepUncounted(s: State, step: Step, g: nat)
    requires Enabled(s, step) && g < |s.funcs| && s.funcs[g] != Dropped && !step.LeaveR1?
    requires Apply(s, step).funcs == s.funcs[g := Apply(s, step).funcs[g]] && Apply(s, step).files == s.files
    requires Apply(s, step).funcs[g] == Dropped <==> SkipsCounter(s, step)
    ensures Uncounted(Apply(s, step)) <==> Uncounted(s) || SkipsCounter(s, step)
  {
    var s' := Apply(s, step);
    assert forall h :: 0 <= h < |s.funcs| && h != g ==> s'.funcs[h] == s.funcs[h];
  }

  lemma StepUncounted(s: State, step: Step)
    requires Enabled(s, step)
    ensures Uncounted(Apply(s, step)) <==> Uncounted(s) || SkipsCounter(s, step)
  {
    match step
    case BeginFile(f) => FileStepUncounted(s, step);
    case EnterR1(f) => FileStepUncounted(s, step);
    case LeaveR1(f, found) => LeaveR1Uncounted(s, f, found);
    case BeginFunc(g, known) => FuncStepUncounted(s, step, g);
    case EnterR2(g) => FuncStepUncounted(s, step, g);
    case LeaveR2(g, passed) => FuncStepUncounted(s, step, g);
    case LeaveR3(g) => FuncStepUncounted(s, step, g);
    case PassCC(g) => FuncStepUncounted(s, step, g);
    case FinishR4(g) => FuncStepUncounted(s, step, g);
    case StartCC =>
    case EndCC =>
    case Cancel =>
  }

  /** Some step before state `i` returned early and skipped its counter. */
  ghost predicate SkippedBefore(r: Run, i: nat)
    requires i < |r.states| == |r.steps| + 1
  {
    exists k :: 0 <= k < i && SkipsCounter(r.states[k], r.steps[k])
  }

  lemma {:induction false} UncountedIffSkipped(r: Run, files: nat, r1: int, r2: int, i: nat)
    requires ValidRun(r, files, r1, r2) && i < |r.states|
    ensures Uncounted(r.states[i]) <==> SkippedBefore(r, i)
    decreases i
  {
    if i > 0 {
      UncountedIffSkipped(r, files, r1, r2, i - 1);
      StepUncounted(r.states[i - 1], r.steps[i - 1]);
    }
  }

  /** The guard that decides it: a run that cannot go on has returned if and only if no file and no
      function began, and no R1 found functions, after the cancellation. */
  lemma StuckReturnsIffNoneSkipped(r: Run, files: nat, r1: int, r2: int, i: nat)
    requires ValidRun(r, files, r1, r2) && i < |r.states| && Stuck(r.states[i])
    ensures Returned(r.states[i]) <==> !SkippedBefore(r, i)
  {
    UncountedIffSkipped(r, files, r1, r2, i);
    StuckReturnsIffAllCounted(r, files, r1, r2, i);
  }

  /** No deadlock: with any semaphore sizes, an uncancelled run that cannot go on has returned. */
  lemma UncancelledNeverStuck(r: Run, files: nat, r1: int, r2: int, i: nat)
    requires ValidRun(r, files, r1, r2) && i < |r.states| && !r.states[i].cancelled && Stuck(r.states[i])
    ensures Returned(r.states[i])
  {
    RunInv(r, files, r1, r2, i);
    StuckReturnsIffAllCounted(r, files, r1, r2, i);
  }

  /** One file and a cancellation before its pipeline starts: the file returns uncounted, and the
      call-chain phase waits for a barrier that nobody will open. */
  lemma CancelHangExample(r1: int, r2: int)
    ensures var s0 := Init(1, r1, r2);
            && Enabled(s0, Cancel)
            && var s1 := Apply(s0, Cancel);
               && Enabled(s1, BeginFile(0))
               && var s2 := Apply(s1, BeginFile(0));
                  Stuck(s2) && s2.cc == Waiting && !s2.allR2Done
  {
    var s2 := Apply(Apply(Init(1, r1, r2), Cancel), BeginFile(0));
    assert s2.files == [Skipped] && s2.funcs == [];
  }

  // ---- termination ----

  function FileWork(p: FilePhase): nat {
    match p case Fresh => 0 case Ready => 1 case InR1 => 2 case Settled => 3 case Skipped => 3
  }

  function FuncWork(p: FuncPhase): nat {
    match p
    case Spawned => 0 case Queued => 1 case InR2 => 2 case InR3 => 3
    case AwaitCC => 4 case InR4 => 5 case Finished => 6 case Dropped => 6
  }

  function CCWork(p: CCPhase): nat {
    match p case Waiting => 0 case Running => 1 case Done => 2
  }

  function Sum<T>(s: seq<T>, w: T -> nat): nat {
    if s == [] then 0 else Sum(s[..|s| - 1], w) + w(s[|s| - 1])
  }

  lemma {:induction false} SumUpdate<T>(s: seq<T>, w: T -> nat, i: nat, x: T)
    requires i < |s|
    ensures Sum(s[i := x], w) + w(s[i]) == Sum(s, w) + w(x)
  {
    var t := s[i := x];
    if i == |s| - 1 {
      assert t[..|t| - 1] == s[..|s| - 1];
    } else {
      SumUpdate(s[..|s| - 1], w, i, x);
      assert t[..|t| - 1] == s[..|s| - 1][i := x];
    }
  }

  lemma {:induction false} SumAppend<T>(s: seq<T>, w: T -> nat, n: nat, x: T)
    ensures Sum(s + seq(n, i => x), w) >= Sum(s, w)
    decreases n
  {
    var t := s + seq(n, i => x);
    if n > 0 {
      SumAppend(s, w, n - 1, x);
      assert t[..|t| - 1] == s + seq(n - 1, i => x);
    } else {
      assert t == s;
    }
  }

  lemma {:induction false} SumBound<T>(s: seq<T>, w: T -> nat, m: nat)
    requires forall x :: x in s ==> w(x) <= m
    ensures Sum(s, w) <= m * |s|
  {
    if s != [] {
      SumBound(s[..|s| - 1], w, m);
      assert m * |s| == m * (|s| - 1) + m;
    }
  }

  function Work(s: State): nat {
    Sum(s.files, FileWork) + Sum(s.funcs, FuncWork) + CCWork(s.cc) + (if s.cancelled then 1 else 0)
  }

  lemma FileStepWorks(s: State, step: Step)
    requires Enabled(s, step) && (step.BeginFile? || step.EnterR1?)
    ensures Work(Apply(s, step)) >= Work(s) + 1
  {
    SumUpdate(s.files, FileWork, step.f, Apply(s, step).files[step.f]);
  }

  lemma LeaveR1Shape(s: State, f: nat, found: nat)
    requires f < |s.files|
    ensures var s' := LeaveR1Step(s, f, found);
            && s'.files == s.files[f := Settled]
            && s'.funcs == s.funcs + seq(found, i => if s.cancelled then Dropped else Spawned)
  {
  }

  lemma LeaveR1Works(s: State, f: nat, found: nat)
    requires FileIs(s, f, InR1)
    ensures Work(LeaveR1Step(s, f, found)) >= Work(s) + 1
  {
    LeaveR1Shape(s, f, found);
    SumUpdate(s.files, FileWork, f, Settled);
    var p := if s.cancelled then Dropped else Spawned;
    assert seq(found, i => if s.cancelled then Dropped else Spawned) == seq(found, i => p);
    SumAppend(s.funcs, FuncWork, found, p);
  }

  lemma FuncStepWorks(s: State, step: Step, g: nat)
    requires Enabled(s, step) && g < |s.funcs| && |Apply(s, step).funcs| == |s.funcs|
    requires Apply(s, step).funcs == s.funcs[g := Apply(s, step).funcs[g]]
    requires FuncWork(Apply(s, step).funcs[g]) >= FuncWork(s.funcs[g]) + 1
    requires var s' := Apply(s, step); s'.files == s.files && s'.cc == s.cc && s'.cancelled == s.cancelled
    ensures Work(Apply(s, step)) >= Work(s) + 1
  {
    SumUpdate(s.funcs, FuncWork, g, Apply(s, step).funcs[g]);
  }

  /** Every step does some work. */
  lemma StepWorks(s: State, step: Step)
    requires Enabled(s, step)
    ensures Work(Apply(s, step)) >= Work(s) + 1
  {
    match step
    case BeginFile(f) => FileStepWorks(s, step);
    case EnterR1(f) => FileStepWorks(s, step);
    case LeaveR1(f, found) => LeaveR1Works(s, f, found);
    case BeginFunc(g, known) => FuncStepWorks(s, step, g);
    case EnterR2(g) => FuncStepWorks(s, step, g);
    case LeaveR2(g, passed) => FuncStepWorks(s, step, g);
    case LeaveR3(g) => FuncStepWorks(s, step, g);
    case PassCC(g) => FuncStepWorks(s, step, g);
    case FinishR4(g) => FuncStepWorks(s, step, g);
    case StartCC =>
    case EndCC =>
    case Cancel =>
  }

  /** Every run is finite: it takes at most three steps per file, six per discovered function and
      three more, however the steps interleave. */
  lemma {:induction false} RunBounded(r: Run, files: nat, r1: int, r2: int, i: nat)
    requires ValidRun(r, files, r1, r2) && i < |r.states|
    ensures i <= Work(r.states[i]) <= 3 * files + 6 * |r.states[i].funcs| + 3
    decreases i
  {
    RunInv(r, files, r1, r2, i);
    SumBound(r.states[i].files, FileWork, 3);
    SumBound(r.states[i].funcs, FuncWork, 6);
    if i > 0 {
      RunBounded(r, files, r1, r2, i - 1);
      StepWorks(r.states[i - 1], r.steps[i - 1]);
    }
  }
}
