/** What `run` really keeps: counters, flags, events and semaphores. Where the coroutines stand is
    stored nowhere; the ghost state knows it, and every method is proved against it. */
module PipelineRun {
  import opened Scheduler
  import opened SchedulerInvariants

  class PipelineRun {
    const totalFiles: nat
    const r1Concurrency: int
    const r2Concurrency: int
    var cancelled: bool
    var totalFuncs: int
    var r1DoneCount: int
    var r2DoneCount: int
    var allR1Done: bool
    var allR2DoneEvent: bool
    var ccDoneEvent: bool
    var r1Sem: int
    var r2Sem: int
    ghost var state: State

    /** The variables are those of the state. */
    ghost predicate Represents() reads this {
      && cancelled == state.cancelled && ccDoneEvent == state.ccDone
      && r1Sem == state.r1Free && r2Sem == state.r2Free
      && totalFuncs == state.totalFuncs && r1DoneCount == state.r1Done && r2DoneCount == state.r2Done
      && allR1Done == state.allR1Done && allR2DoneEvent == state.allR2Done
    }

    /** The variables are those of a state that some run reaches. */
    ghost predicate Valid() reads this {
      Represents() && Reachable(state, totalFiles, r1Concurrency, r2Concurrency)
    }

    constructor (fileCount: nat, r1Concurrency: int, r2Concurrency: int)
      ensures Valid() && state == Init(fileCount, r1Concurrency, r2Concurrency)
      ensures totalFiles == fileCount && this.r1Concurrency == r1Concurrency && this.r2Concurrency == r2Concurrency
      ensures (allR2DoneEvent <==> WorkDone(state)) && !allR1Done && totalFuncs == r1DoneCount == r2DoneCount == 0
      ensures r1Sem == (if r1Concurrency >= 1 then r1Concurrency else 1) && r2Sem == if r2Concurrency >= 1 then r2Concurrency else 1
    {
      totalFiles, this.r1Concurrency, this.r2Concurrency := fileCount, r1Concurrency, r2Concurrency;
      cancelled, totalFuncs, r1DoneCount, r2DoneCount, allR1Done := false, 0, 0, 0, false;
      allR2DoneEvent, ccDoneEvent := fileCount == 0, false;
      r1Sem, r2Sem := AtLeastOne(r1Concurrency), AtLeastOne(r2Concurrency);
      state := Init(fileCount, r1Concurrency, r2Concurrency);
      new;
      ReachableInit(fileCount, r1Concurrency, r2Concurrency);
      ReachableFacts(state, fileCount, r1Concurrency, r2Concurrency);
    }

    /** The barrier, the permits and the end of the run, read off the variables. */
    lemma Promises()
      requires Valid()
      ensures (allR2DoneEvent <==> WorkDone(state)) && (ccDoneEvent ==> allR2DoneEvent)
      ensures r1Sem >= 0 && r1Sem + CountIn(state.files, {InR1}) == if r1Concurrency >= 1 then r1Concurrency else 1
      ensures r2Sem >= 0 && r2Sem + CountIn(state.funcs, {InR2}) == if r2Concurrency >= 1 then r2Concurrency else 1
      ensures Stuck(state) ==> (Returned(state) <==> !Uncounted(state))
      ensures Stuck(state) && !cancelled ==> Returned(state)
    {
      ReachableFacts(state, totalFiles, r1Concurrency, r2Concurrency);
      var r :| ValidRun(r, totalFiles, r1Concurrency, r2Concurrency) && r.states[|r.steps|] == state;
      if Stuck(state) {
        StuckReturnsIffAllCounted(r, totalFiles, r1Concurrency, r2Concurrency, |r.steps|);
        if !cancelled { UncancelledNeverStuck(r, totalFiles, r1Concurrency, r2Concurrency, |r.steps|); }
      }
    }

    /** The coroutine takes a step, and its variables have yet to follow. */
    ghost method Move(step: Step)
      requires Reachable(state, totalFiles, r1Concurrency, r2Concurrency) && Enabled(state, step)
      modifies this`state
      ensures state == Apply(old(state), step)
      ensures Reachable(state, totalFiles, r1Concurrency, r2Concurrency)
    {
      ReachableStep(state, step, totalFiles, r1Concurrency, r2Concurrency);
      state := Apply(state, step);
    }

    /** The state is right, and some of the variables have yet to follow it. */
    ghost predicate Moved() reads this {
      Reachable(state, totalFiles, r1Concurrency, r2Concurrency) && totalFiles > 0
    }

    /** _maybe_set_all_r2_done: with right counters, the event ends up set exactly if all work is done. */
    method MaybeSetAllR2Done()
      requires Moved() && totalFuncs == state.totalFuncs && r2DoneCount == state.r2Done && allR1Done == state.allR1Done
      requires allR2DoneEvent ==> WorkDone(state)
      modifies this`allR2DoneEvent
      ensures allR2DoneEvent == state.allR2Done && (allR2DoneEvent <==> WorkDone(state))
    {
      ReachableFacts(state, totalFiles, r1Concurrency, r2Concurrency);
      if allR1Done && r2DoneCount >= totalFuncs {
        allR2DoneEvent := true;
      }
    }

    /** _on_r1_done: one settled file and its functions are not counted yet; afterwards they are, and
        the event says whether all work is done. */
    method OnR1Done(funcCount: nat)
      requires Moved() && totalFuncs + funcCount == state.totalFuncs && r1DoneCount + 1 == state.r1Done
      requires r2DoneCount == state.r2Done && !allR1Done && !allR2DoneEvent
      modifies this`totalFuncs, this`r1DoneCount, this`allR1Done, this`allR2DoneEvent
      ensures totalFuncs == |state.funcs| && r1DoneCount == CountIn(state.files, {Settled})
      ensures totalFuncs == state.totalFuncs && r1DoneCount == state.r1Done && allR1Done == state.allR1Done
      ensures allR2DoneEvent == state.allR2Done && (allR2DoneEvent <==> WorkDone(state))
    {
      ReachableFacts(state, totalFiles, r1Concurrency, r2Concurrency);
      totalFuncs := totalFuncs + funcCount;
      r1DoneCount := r1DoneCount + 1;
      if r1DoneCount == totalFiles {
        allR1Done := true;
        MaybeSetAllR2Done();
      }
    }

    /** The end of R2: one function is not counted yet; afterwards it is, and the event says whether
        all work is done. */
    method CountR2()
      requires Moved() && totalFuncs == state.totalFuncs && r2DoneCount + 1 == state.r2Done
      requires allR1Done == state.allR1Done && !allR2DoneEvent
      modifies this`r2DoneCount, this`allR2DoneEvent
      ensures r2DoneCount == state.r2Done == CountIn(state.funcs, COUNTED)
      ensures allR2DoneEvent == state.allR2Done && (allR2DoneEvent <==> WorkDone(state))
    {
      ReachableFacts(state, totalFiles, r1Concurrency, r2Concurrency);
      r2DoneCount := r2DoneCount + 1;
      MaybeSetAllR2Done();
    }

    /** _complete_file_pipeline up to the R1 semaphore: a cancelled file goes no further. */
    method BeginFile(ghost f: nat) returns (go: bool)
      requires Valid() && FileIs(state, f, Fresh)
      modifies this`state
      ensures Valid() && state == Apply(old(state), Step.BeginFile(f))
      ensures go == !cancelled && FileIs(state, f, if go then Ready else Skipped)
    {
      Move(Step.BeginFile(f));
      go := !cancelled;
    }

    /** The semaphore lets a file in, and never more files than it has permits. */
    method EnterR1(ghost f: nat)
      requires Valid() && FileIs(state, f, Ready) && r1Sem > 0
      modifies this`state, this`r1Sem
      ensures Valid() && state == Apply(old(state), Step.EnterR1(f))
      ensures FileIs(state, f, InR1) && CountIn(state.files, {InR1}) <= (if r1Concurrency >= 1 then r1Concurrency else 1)
    {
      Move(Step.EnterR1(f));
      r1Sem := r1Sem - 1;
      ReachableFacts(state, totalFiles, r1Concurrency, r2Concurrency);
    }

    /** R1 settled, in time or not: the work grows, which it does only before the barrier opens. */
    method LeaveR1(ghost f: nat, found: nat) returns (launch: bool)
      requires Valid() && FileIs(state, f, InR1)
      modifies this`state, this`r1Sem, this`totalFuncs, this`r1DoneCount, this`allR1Done, this`allR2DoneEvent
      ensures Valid() && state == Apply(old(state), Step.LeaveR1(f, found))
      ensures !old(allR2DoneEvent) && (allR2DoneEvent <==> WorkDone(state))
      ensures totalFuncs == old(totalFuncs) + found == |state.funcs| && launch == (!cancelled && found > 0)
      ensures FileIs(state, f, Settled)
      ensures forall g :: old(totalFuncs) <= g < |state.funcs| ==> state.funcs[g] == if cancelled then Dropped else Spawned
    {
      FileBeforeBarrier(state, f, found);
      Move(Step.LeaveR1(f, found));
      ReachableFacts(state, totalFiles, r1Concurrency, r2Concurrency);
      r1Sem := r1Sem + 1;
      OnR1Done(found);
      launch := !cancelled && found > 0;
    }

    /** A file in R1 keeps the barrier closed. */
    lemma FileBeforeBarrier(s: State, f: nat, found: nat)
      requires Reachable(s, totalFiles, r1Concurrency, r2Concurrency) && FileIs(s, f, InR1)
      ensures totalFiles > 0 && !s.allR1Done && !s.allR2Done
      ensures var t := Apply(s, Step.LeaveR1(f, found));
              && t.totalFuncs == s.totalFuncs + found && t.r1Done == s.r1Done + 1 && t.r2Done == s.r2Done
              && FileIs(t, f, Settled) && (forall g :: |s.funcs| <= g < |t.funcs| ==> t.funcs[g] == if s.cancelled then Dropped else Spawned)
              && t.r1Free == s.r1Free + 1 && t.r2Free == s.r2Free && t.ccDone == s.ccDone && t.cancelled == s.cancelled
    {
      ReachableFacts(s, totalFiles, r1Concurrency, r2Concurrency);
      ReachableStep(s, Step.LeaveR1(f, found), totalFiles, r1Concurrency, r2Concurrency);
      ReachableFacts(Apply(s, Step.LeaveR1(f, found)), totalFiles, r1Concurrency, r2Concurrency);
    }

    /** A function before the end of R2 keeps the barrier closed. */
    lemma FuncBeforeBarrier(s: State, g: nat)
      requires Reachable(s, totalFiles, r1Concurrency, r2Concurrency) && g < |s.funcs| && s.funcs[g] !in COUNTED
      ensures totalFiles > 0 && !s.allR2Done
    {
      ReachableFacts(s, totalFiles, r1Concurrency, r2Concurrency);
    }

    /** _func_pipeline up to the R2 semaphore; a function unknown to the saved state still counts. */
    method BeginFunc(ghost g: nat, known: bool) returns (go: bool)
      requires Valid() && FuncIs(state, g, Spawned)
      modifies this`state, this`r2DoneCount, this`allR2DoneEvent
      ensures Valid() && state == Apply(old(state), Step.BeginFunc(g, known))
      ensures !old(allR2DoneEvent) && (allR2DoneEvent <==> WorkDone(state))
      ensures go == (!cancelled && known)
      ensures FuncIs(state, g, if go then Queued else if cancelled then Dropped else Finished)
    {
      FuncBeforeBarrier(state, g);
      Move(Step.BeginFunc(g, known));
      go := !cancelled && known;
      if !cancelled && !known {
        CountR2();
      } else {
        ReachableFacts(state, totalFiles, r1Concurrency, r2Concurrency);
      }
    }

    /** The semaphore lets a function in, and never more functions than it has permits. */
    method EnterR2(ghost g: nat)
      requires Valid() && FuncIs(state, g, Queued) && r2Sem > 0
      modifies this`state, this`r2Sem
      ensures Valid() && state == Apply(old(state), Step.EnterR2(g))
      ensures FuncIs(state, g, InR2) && CountIn(state.funcs, {InR2}) <= (if r2Concurrency >= 1 then r2Concurrency else 1) && !allR2DoneEvent
    {
      FuncBeforeBarrier(state, g);
      Move(Step.EnterR2(g));
      r2Sem := r2Sem - 1;
      ReachableFacts(state, totalFiles, r1Concurrency, r2Concurrency);
    }

    /** The end of R2: the function is counted, the last one opens the barrier, and the permit goes
        back before the function can wait for anything else. */
    method LeaveR2(ghost g: nat, passed: bool) returns (go: bool)
      requires Valid() && FuncIs(state, g, InR2)
      modifies this`state, this`r2Sem, this`r2DoneCount, this`allR2DoneEvent
      ensures Valid() && state == Apply(old(state), Step.LeaveR2(g, passed))
      ensures !old(allR2DoneEvent) && (allR2DoneEvent <==> WorkDone(state))
      ensures go == (!cancelled && passed) && FuncIs(state, g, if go then InR3 else Finished)
    {
      FuncBeforeBarrier(state, g);
      Move(Step.LeaveR2(g, passed));
      CountR2();
      r2Sem := r2Sem + 1;
      go := !cancelled && passed;
    }

    /** The end of R3: a function that goes on waits for the call-chain phase. */
    method LeaveR3(ghost g: nat) returns (go: bool)
      requires Valid() && FuncIs(state, g, InR3)
      modifies this`state
      ensures Valid() && state == Apply(old(state), Step.LeaveR3(g))
      ensures go == !cancelled && FuncIs(state, g, if go then AwaitCC else Finished)
    {
      Move(Step.LeaveR3(g));
      go := !cancelled;
    }

    /** Behind the call-chain event all work has been discovered and counted. */
    method PassCC(ghost g: nat) returns (go: bool)
      requires Valid() && FuncIs(state, g, AwaitCC) && ccDoneEvent
      modifies this`state
      ensures Valid() && state == Apply(old(state), Step.PassCC(g))
      ensures WorkDone(state) && state.cc == Done && allR2DoneEvent
      ensures go == !cancelled && FuncIs(state, g, if go then InR4 else Finished)
    {
      Move(Step.PassCC(g));
      ReachableFacts(state, totalFiles, r1Concurrency, r2Concurrency);
      go := !cancelled;
    }

    /** R4 and R5 end, which only happens behind the call-chain phase. */
    method FinishR4(ghost g: nat)
      requires Valid() && FuncIs(state, g, InR4)
      modifies this`state
      ensures Valid() && state == Apply(old(state), Step.FinishR4(g))
      ensures WorkDone(state) && ccDoneEvent && allR2DoneEvent && FuncIs(state, g, Finished)
    {
      ReachableFacts(state, totalFiles, r1Concurrency, r2Concurrency);
      Move(Step.FinishR4(g));
      ReachableFacts(state, totalFiles, r1Concurrency, r2Concurrency);
    }

    /** _cc_phase behind the barrier: the analysis sees every file settled and every function counted. */
    method StartCC() returns (analyse: bool)
      requires Valid() && state.cc == Waiting && allR2DoneEvent
      modifies this`state, this`ccDoneEvent
      ensures Valid() && state == Apply(old(state), Step.StartCC)
      ensures WorkDone(state) && analyse == !cancelled && ccDoneEvent == !analyse && state.cc == if analyse then Running else Done
    {
      ReachableFacts(state, totalFiles, r1Concurrency, r2Concurrency);
      Move(Step.StartCC);
      ReachableFacts(state, totalFiles, r1Concurrency, r2Concurrency);
      analyse := !cancelled;
      if cancelled { ccDoneEvent := true; }
    }

    /** The end of the analysis opens R4; nothing was discovered meanwhile. */
    method EndCC()
      requires Valid() && state.cc == Running
      modifies this`state, this`ccDoneEvent
      ensures Valid() && state == Apply(old(state), Step.EndCC)
      ensures WorkDone(state) && ccDoneEvent && state.cc == Done
    {
      Move(Step.EndCC);
      ReachableFacts(state, totalFiles, r1Concurrency, r2Concurrency);
      ccDoneEvent := true;
    }

    /** The cancel event is set; counters, permits and events stay as they are. */
    method SetCancel()
      requires Valid() && !cancelled
      modifies this`state, this`cancelled
      ensures Valid() && state == Apply(old(state), Step.Cancel)
      ensures cancelled && state.files == old(state).files && state.funcs == old(state).funcs && state.cc == old(state).cc
    {
      Move(Step.Cancel);
      cancelled := true;
    }
  }
}
