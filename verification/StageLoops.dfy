/** The worker and judge loops that take one function from its line check to its report.

    The agents' answers are unknown inputs: `judge(k)` and `worker(k)` are the answers to the
    k-th call of a loop. A run is watched up to `horizon` answers; `done` is false when the loop
    then still waits for another one, so every finite part of an unlimited retry is covered. */
module StageLoops {

  datatype NodeState = Pending | Running | Passed | Failed

  /** What a line judge decides; a crashed judge counts as `Fail`. */
  datatype Verdict = Pass | Delete | Skip | Discard | Fail

  /** How a repair ends; the worker may find that the source breaks off, or crash. */
  datatype Repair = Mended | SourceIncomplete | RepairCrashed

  /** What an input analysis yields. One that is lost crashed before anything was taken over; one that
      is taken over may still crash while it is being saved. */
  datatype Analysis = Lost | Unparsed(hasInput: bool, crashed: bool)
                    | Parsed(hasInput: bool, decision: string, crashed: bool)

  predicate Crashes(a: Analysis) {
    a.Lost? || a.crashed
  }

  /** What a call-chain worker leaves behind. */
  datatype Outcome = Broken | NoResult | Decided(decision: string)

  /** How one turn of a loop ends. */
  datatype End = Again | Settled | Spent | Cancelled | Waiting

  /** The calls a round limit leaves: -1 is unlimited, and the other negatives allow nothing. */
  function Quota(max: int, used: nat): nat
    requires max != -1
  {
    if max > used then max - used else 0
  }

  /** The round limit allows one more attempt. */
  predicate More(max: int, used: nat) {
    max == -1 || Quota(max, used) > 0
  }

  predicate GivesUp(v: Verdict) {
    v.Skip? || v.Discard?
  }

  function Resolve(o: Outcome): string {
    if o.Decided? then o.decision else "keep"
  }

  /** The worker's answer drops the function. */
  predicate Removes(o: Outcome) {
    o.Decided? && o.decision != "keep"
  }

  /** The decision that one analysis makes of the previous one. */
  function Decide(a: Analysis, previous: string): string {
    match a
    case Lost => previous
    case Unparsed(hasInput, _) => if !hasInput && previous == "" then "filter" else previous
    case Parsed(hasInput, decision, _) =>
      if !hasInput then "filter" else if decision == "filter" || decision == "keep" then decision else previous
  }

  /** The decision after the first `n` analyses. */
  function DecisionAfter(worker: nat -> Analysis, n: nat, initial: string): string {
    if n == 0 then initial else Decide(worker(n - 1), DecisionAfter(worker, n - 1, initial))
  }

  /** What the last analysis that was taken over says about external input. */
  function InputAfter(worker: nat -> Analysis, n: nat, initial: bool): bool {
    if n == 0 then initial
    else if worker(n - 1).Lost? then InputAfter(worker, n - 1, initial)
    else worker(n - 1).hasInput
  }

  /** How many of the first `n` analyses came back without a crash. */
  function CameBack(worker: nat -> Analysis, n: nat): nat {
    if n == 0 then 0 else CameBack(worker, n - 1) + (if worker(n - 1).Lost? || worker(n - 1).crashed then 0 else 1)
  }

  /** The rejections among `judged` verdicts of which only the last may accept. */
  function Rejections(judge: nat -> bool, judged: nat): (n: nat)
    ensures judged - 1 <= n <= judged
  {
    if judged > 0 && judge(judged - 1) then judged - 1 else judged
  }

  /** Of the analyses from `first` to `last`, at most `n` came back, and exactly `n` if `all`. */
  predicate Answered(worker: nat -> Analysis, first: nat, last: nat, n: nat, all: bool) {
    && CameBack(worker, last) <= CameBack(worker, first) + n
    && (all ==> CameBack(worker, last) == CameBack(worker, first) + n)
  }

  /** After `worked` analyses and `judged` rejections the judge loop goes on. */
  predicate Looping(wMax: int, jMax: int, worker: nat -> Analysis, judge: nat -> bool, first: nat,
                    worked0: nat, judged0: nat, worked: nat, judged: nat, seen: bool)
  {
    && Within(wMax, jMax, worked0, judged0, worked, judged)
    && (judged == 0 ==> worked == 0)
    && (forall k :: 0 <= k < judged ==> !judge(k))
    && Answered(worker, first, first + worked, judged, !seen && More(wMax, worked0 + worked))
  }

  predicate Within(wMax: int, jMax: int, worked0: nat, judged0: nat, worked: nat, judged: nat) {
    (worked > 0 ==> More(wMax, worked0 + worked - 1)) && (judged > 0 ==> More(jMax, judged0 + judged - 1))
  }

  /** One more turn of the judge loop. */
  lemma JudgeTurn(wMax: int, jMax: int, worker: nat -> Analysis, judge: nat -> bool, first: nat,
                  worked0: nat, judged0: nat, worked: nat, judged: nat, seen: bool, end: End, w: nat, j: nat, seenNow: bool)
    requires Looping(wMax, jMax, worker, judge, first, worked0, judged0, worked, judged, seen) && (seen ==> seenNow)
    requires j <= 1 && Within(wMax, jMax, worked0 + worked, judged0 + judged, w, j) && (j == 0 || end.Settled? ==> w == 0)
    requires (end.Settled? <==> j == 1 && judge(judged)) && (end.Again? ==> j == 1)
    requires Answered(worker, first + worked, first + worked + w, if j == 1 && !judge(judged) then 1 else 0,
                      !end.Waiting? && !seenNow && More(wMax, worked0 + worked + w))
    ensures var n, m := worked + w, judged + j;
            && LoopedUpTo(wMax, jMax, worker, judge, first, worked0, judged0, n, m, end.Waiting? || seenNow)
            && (end.Again? ==> Looping(wMax, jMax, worker, judge, first, worked0, judged0, n, m, seenNow))
  {
  }

  /** The judge loop has ended or waits, after `worked` analyses and `judged` verdicts. */
  predicate LoopedUpTo(wMax: int, jMax: int, worker: nat -> Analysis, judge: nat -> bool, first: nat,
                       worked0: nat, judged0: nat, worked: nat, judged: nat, open: bool)
  {
    && Within(wMax, jMax, worked0, judged0, worked, judged)
    && (forall k :: 0 <= k < judged - 1 ==> !judge(k))
    && (Rejections(judge, judged) == 0 ==> worked == 0)
    && Answered(worker, first, first + worked, Rejections(judge, judged), !open && More(wMax, worked0 + worked))
  }

  /** The cancel event: some look is the first to find it set, and all later ones do too. */
  class CancelEvent {
    const setAt: nat
    var looks: nat

    constructor (setAt: nat)
      ensures this.setAt == setAt && !Seen()
    {
      this.setAt, looks := setAt, 0;
    }

    /** Some look has found the event set. */
    ghost predicate Seen() reads this { looks > setAt }

    method IsSet() returns (b: bool)
      modifies this
      ensures looks == old(looks) + 1 && (old(Seen()) ==> Seen())
      ensures b <==> Seen()
    {
      b := looks >= setAt;
      looks := looks + 1;
    }
  }

  /** _should_continue. */
  method ShouldContinue(attempts: nat, max: int, cancel: CancelEvent) returns (more: bool)
    modifies cancel
    ensures cancel.looks == old(cancel.looks) + 1 && (old(cancel.Seen()) ==> cancel.Seen())
    ensures more <==> !cancel.Seen() && More(max, attempts)
  {
    var stop := cancel.IsSet();
    if stop { return false; }
    if max == 0 { return false; }
    if max == -1 { return true; }
    return attempts < max;
  }

  class FunctionState {
    var r2J: NodeState
    var r2JAttempts: nat
    var r2W: NodeState
    var r2WAttempts: nat
    var sourceIncomplete: bool

    var r3W: NodeState
    var r3WAttempts: nat
    var r3J: NodeState
    var r3JAttempts: nat
    var hasExternalInput: bool

    var r4Decision: string
    var r4: NodeState
    var r4Attempts: nat
    var r4J: NodeState
    var r4JAttempts: nat
    var r5: NodeState

    constructor ()
      ensures r2J == Pending && r3W == Pending && r4 == Pending && r5 == Pending
      ensures !sourceIncomplete && !hasExternalInput && r4Decision == ""
      ensures r2JAttempts == r3WAttempts == r3JAttempts == r4Attempts == r4JAttempts == 0
    {
      r2J, r2JAttempts, r2W, r2WAttempts, sourceIncomplete := Pending, 0, Pending, 0, false;
      r3W, r3WAttempts, r3J, r3JAttempts, hasExternalInput := Pending, 0, Pending, 0, false;
      r4Decision, r4, r4Attempts, r4J, r4JAttempts, r5 := "", Pending, 0, Pending, 0, Pending;
    }

    /** _run_r2_j: every verdict but `Fail` ends the loop. */
    method R2Judge(v: Verdict) returns (accepted: bool)
      modifies `r2J, `r2JAttempts, `sourceIncomplete
      ensures r2JAttempts == old(r2JAttempts) + 1
      ensures accepted == !v.Fail?
      ensures r2J == (if v.Pass? || v.Delete? then Passed else Failed)
      ensures sourceIncomplete == (old(sourceIncomplete) || v.Skip? || v.Discard?)
    {
      r2J, r2JAttempts := Running, r2JAttempts + 1;
      match v {
        case Skip => sourceIncomplete := true; r2J := Failed; return true;
        case Discard => sourceIncomplete := true; r2J := Failed; return true;
        case _ =>
          accepted := v.Pass? || v.Delete?;
          r2J := if accepted then Passed else Failed;
      }
    }

    /** _run_r2_w: whatever the repair comes to, the judge is asked again. */
    method R2Worker(repair: Repair)
      modifies `r2W, `r2WAttempts, `sourceIncomplete
      ensures r2WAttempts == old(r2WAttempts) + 1 && r2W == (if repair.RepairCrashed? then Failed else Passed)
      ensures sourceIncomplete == (old(sourceIncomplete) || repair.SourceIncomplete?)
    {
      r2W, r2WAttempts := Running, r2WAttempts + 1;
      if repair.RepairCrashed? {
        r2W := Failed;
        return;
      }
      if repair.SourceIncomplete? { sourceIncomplete := true; }
      r2W := Passed;
    }

    /** One turn of the loop of _run_r2: judge, and unless that settles it, repair. */
    method R2Round(max: int, v: Verdict, repair: Repair, cancel: CancelEvent, budget: nat)
      returns (end: End, judged: nat, fixed: nat)
      requires r2J != Passed
      modifies `r2J, `r2JAttempts, `r2W, `r2WAttempts, `sourceIncomplete, cancel
      ensures old(cancel.Seen()) ==> cancel.Seen()
      ensures old(cancel.Seen()) ==> judged == 0
      ensures fixed <= judged <= 1 && judged + fixed <= budget
      ensures r2JAttempts == old(r2JAttempts) + judged && r2WAttempts == old(r2WAttempts) + fixed
      ensures judged == 1 ==> More(max, old(r2JAttempts))
      ensures fixed == 1 ==> v.Fail? && More(max, r2JAttempts)
      ensures sourceIncomplete == (old(sourceIncomplete) || (judged == 1 && GivesUp(v)) || (fixed == 1 && repair.SourceIncomplete?))
      ensures judged == 1 ==> r2J == (if v.Pass? || v.Delete? then Passed else Failed)
      ensures judged == 0 ==> r2J == old(r2J)
      ensures fixed == 1 ==> r2W == (if repair.RepairCrashed? then Failed else Passed)
      ensures end.Again? ==> judged == fixed == 1 && !cancel.Seen() && cancel.looks == old(cancel.looks) + 4
      ensures end.Cancelled? && !old(cancel.Seen()) ==> cancel.setAt - old(cancel.looks) in {1, 3}
      ensures end.Spent? && cancel.Seen() && !old(cancel.Seen()) ==> cancel.setAt - old(cancel.looks) in {0, 2}
      ensures end.Waiting? ==> judged + fixed == budget && More(max, r2JAttempts) && (judged == 1 ==> v.Fail?)
      ensures end.Waiting? && judged == 1 ==> r2W == Pending
      ensures end.Cancelled? ==> judged == 1 && cancel.Seen() && v.Fail?
      ensures end.Settled? ==> judged > fixed && !v.Fail?
      ensures end.Spent? ==> judged >= fixed && fixed == 0 && (judged == 1 ==> v.Fail?)
                             && (cancel.Seen() || !More(max, r2JAttempts))
    {
      judged, fixed := 0, 0;
      var more := ShouldContinue(r2JAttempts, max, cancel);
      if !more { return Spent, judged, fixed; }
      if budget == 0 { return Waiting, judged, fixed; }
      var accepted := R2Judge(v);
      judged := 1;
      if accepted { return Settled, judged, fixed; }
      var stop := cancel.IsSet();
      if stop { return Cancelled, judged, fixed; }
      more := ShouldContinue(r2JAttempts, max, cancel);
      if !more { return Spent, judged, fixed; }
      r2W := Pending;
      if budget == 1 { return Waiting, judged, fixed; }
      R2Worker(repair);
      fixed := 1;
      stop := cancel.IsSet();
      return if stop then Cancelled else Again, judged, fixed;
    }

    /** The loop of _run_r2. */
    method R2Loop(max: int, judge: nat -> Verdict, worker: nat -> Repair, cancel: CancelEvent, horizon: nat)
      returns (done: bool, judged: nat, fixed: nat)
      requires r2J != Passed
      modifies `r2J, `r2JAttempts, `r2W, `r2WAttempts, `sourceIncomplete, cancel
      ensures old(cancel.Seen()) ==> cancel.Seen()
      ensures old(cancel.Seen()) ==> judged == 0
      ensures fixed <= judged <= fixed + 1
      ensures r2JAttempts == old(r2JAttempts) + judged && r2WAttempts == old(r2WAttempts) + fixed
      ensures max != -1 ==> judged <= Quota(max, old(r2JAttempts))
      ensures !done ==> judged + fixed == horizon
      ensures max != -1 && horizon >= 2 * Quota(max, old(r2JAttempts)) ==> done
      ensures forall k :: 0 <= k < judged - 1 ==> judge(k).Fail?
      ensures sourceIncomplete == (old(sourceIncomplete) || GivenUp(judge, judged) || BrokenOff(worker, fixed))
      ensures done && !cancel.Seen() ==> r2J == Passed && (judged == 0 || judged == fixed + 1)
      ensures done && !cancel.Seen() && (judged == 0 || judge(judged - 1).Fail?)
              ==> max != -1 && judged == Quota(max, old(r2JAttempts))
      // a cancellation that a loop guard sees first force-passes; one that a check after an agent sees first does not
      ensures done && cancel.Seen() && !old(cancel.Seen()) && (judged == 0 || judge(judged - 1).Fail?)
              ==> (r2J == Passed <==> (cancel.setAt - old(cancel.looks)) % 2 == 0)
    {
      judged, fixed := 0, 0;
      while true
        invariant old(cancel.Seen()) ==> cancel.Seen()
        invariant old(cancel.Seen()) ==> judged == 0
        invariant cancel.looks == old(cancel.looks) + 4 * judged && (!old(cancel.Seen()) ==> !cancel.Seen())
        invariant r2J != Passed && judged == fixed && judged + fixed <= horizon
        invariant r2JAttempts == old(r2JAttempts) + judged && r2WAttempts == old(r2WAttempts) + fixed
        invariant judged > 0 ==> More(max, r2JAttempts)
        invariant forall k :: 0 <= k < judged ==> judge(k).Fail?
        invariant sourceIncomplete == (old(sourceIncomplete) || GivenUp(judge, judged) || BrokenOff(worker, fixed))
        decreases horizon - judged
      {
        var end, j, f := R2Round(max, judge(judged), worker(fixed), cancel, horizon - judged - fixed);
        judged, fixed := judged + j, fixed + f;
        if end.Waiting? { return false, judged, fixed; }
        if end.Cancelled? { return true, judged, fixed; }
        if !end.Again? { break; }
      }
      if r2J != Passed { r2J := Passed; }
      done := true;
    }

    /** _run_r2: leaves a passed or given-up function alone, then tries the script, then loops. */
    method RunR2(scriptPasses: bool, max: int, judge: nat -> Verdict, worker: nat -> Repair,
                 cancel: CancelEvent, horizon: nat)
      returns (done: bool, judged: nat, fixed: nat)
      modifies `r2J, `r2JAttempts, `r2W, `r2WAttempts, `sourceIncomplete, cancel
      ensures old(cancel.Seen()) ==> cancel.Seen()
      ensures old(r2J) == Passed || old(sourceIncomplete) ==>
        done && judged == 0 && r2J == old(r2J) && r2JAttempts == old(r2JAttempts)
      ensures scriptPasses || old(cancel.Seen()) ==> judged == 0
      ensures scriptPasses ==> done
      ensures scriptPasses && old(r2J) != Passed && !old(sourceIncomplete) ==> r2J == Passed && r2JAttempts == 1
      ensures fixed <= judged && r2WAttempts == old(r2WAttempts) + fixed
      ensures max != -1 ==> judged <= Quota(max, old(r2JAttempts))
      ensures max != -1 && horizon >= 2 * Quota(max, old(r2JAttempts)) ==> done
      ensures !done ==> judged + fixed == horizon
      ensures forall k :: 0 <= k < judged - 1 ==> judge(k).Fail?
      ensures sourceIncomplete == (old(sourceIncomplete) || GivenUp(judge, judged) || BrokenOff(worker, fixed))
      ensures done && !cancel.Seen() ==> judged == 0 || judged == fixed + 1
      ensures done && !cancel.Seen() && !old(sourceIncomplete) ==> r2J == Passed
      ensures done && !cancel.Seen() && old(r2J) != Passed && !old(sourceIncomplete) && !scriptPasses
              && (judged == 0 || judge(judged - 1).Fail?)
              ==> max != -1 && judged == Quota(max, old(r2JAttempts))
    {
      if r2J == Passed || sourceIncomplete { return true, 0, 0; }
      if scriptPasses {
        r2J, r2JAttempts := Passed, 1;
        return true, 0, 0;
      }
      done, judged, fixed := R2Loop(max, judge, worker, cancel, horizon);
    }

    /** The result of one input analysis is taken over. */
    method R3Apply(a: Analysis)
      modifies `r3W, `hasExternalInput, `r4Decision
      ensures r4Decision == Decide(a, old(r4Decision))
      ensures a.Parsed? && a.hasInput && a.decision in {"filter", "keep"} ==> r4Decision == a.decision
      ensures a.Parsed? && !a.hasInput ==> r4Decision == "filter"
      ensures a.Unparsed? && !a.hasInput && old(r4Decision) == "" ==> r4Decision == "filter"
      ensures a.Parsed? && a.hasInput && a.decision !in {"filter", "keep"} ==> r4Decision == old(r4Decision)
      ensures a.Lost? || (a.Unparsed? && (a.hasInput || old(r4Decision) != "")) ==> r4Decision == old(r4Decision)
      ensures r3W == (if a.Lost? || a.crashed then Failed else Passed)
      ensures hasExternalInput == (if a.Lost? then old(hasExternalInput) else a.hasInput)
    {
      match a {
        case Lost =>
        case Parsed(hasInput, decision, _) =>
          hasExternalInput := hasInput;
          if decision == "filter" {
            r4Decision := "filter";
          } else if decision == "keep" {
            r4Decision := "keep";
          }
          if !hasInput { r4Decision := "filter"; }
        case Unparsed(hasInput, _) =>
          hasExternalInput := hasInput;
          if !hasInput && r4Decision == "" { r4Decision := "filter"; }
      }
      r3W := if Crashes(a) then Failed else Passed;
    }

    /** One turn of _run_r3_analysis_w. */
    method R3Attempt(worker: nat -> Analysis, n: nat, ghost decision0: string, ghost input0: bool)
      requires Follows(worker, n, decision0, input0)
      modifies `r3W, `r3WAttempts, `hasExternalInput, `r4Decision
      ensures r3WAttempts == old(r3WAttempts) + 1
      ensures r3W == (if Crashes(worker(n)) then Failed else Passed)
      ensures CameBack(worker, n + 1) == CameBack(worker, n) + (if r3W == Passed then 1 else 0)
      ensures Follows(worker, n + 1, decision0, input0)
    {
      r3W, r3WAttempts := Running, r3WAttempts + 1;
      R3Apply(worker(n));
    }

    /** _run_r3_analysis_w: repeated until one analysis comes back; `first` calls went before. */
    method R3Worker(max: int, worker: nat -> Analysis, first: nat, cancel: CancelEvent, budget: nat,
                    ghost decision0: string, ghost input0: bool)
      returns (done: bool, worked: nat)
      requires r3W != Passed && Follows(worker, first, decision0, input0)
      modifies `r3W, `r3WAttempts, `hasExternalInput, `r4Decision, cancel
      ensures old(cancel.Seen()) ==> cancel.Seen()
      ensures r3WAttempts == old(r3WAttempts) + worked && worked <= budget
      ensures worked > 0 ==> More(max, r3WAttempts - 1)
      ensures !done ==> worked == budget && r3W != Passed && More(max, r3WAttempts)
      ensures forall k :: first <= k < first + worked - 1 ==> Crashes(worker(k))
      ensures done && r3W != Passed ==> cancel.Seen() || !More(max, r3WAttempts)
      ensures r3W == Passed <==> worked > 0 && !Crashes(worker(first + worked - 1))
      ensures CameBack(worker, first + worked) == CameBack(worker, first) + (if r3W == Passed then 1 else 0)
      ensures Follows(worker, first + worked, decision0, input0)
    {
      worked := 0;
      while true
        invariant old(cancel.Seen()) ==> cancel.Seen()
        invariant r3W != Passed && worked <= budget && r3WAttempts == old(r3WAttempts) + worked
        invariant worked > 0 ==> More(max, r3WAttempts - 1)
        invariant forall k :: first <= k < first + worked ==> Crashes(worker(k))
        invariant CameBack(worker, first + worked) == CameBack(worker, first)
        invariant Follows(worker, first + worked, decision0, input0)
        decreases budget - worked
      {
        var more := ShouldContinue(r3WAttempts, max, cancel);
        if !more { return true, worked; }
        if worked == budget { return false, worked; }
        R3Attempt(worker, first + worked, decision0, input0);
        worked := worked + 1;
        if r3W == Passed { return true, worked; }
      }
    }

    /** The decision and the input flag are those that `n` analyses make of the initial ones. */
    ghost predicate Follows(worker: nat -> Analysis, n: nat, decision0: string, input0: bool)
      reads `r4Decision, `hasExternalInput
    {
      r4Decision == DecisionAfter(worker, n, decision0) && hasExternalInput == InputAfter(worker, n, input0)
    }

    /** _run_r3_analysis_j. */
    method R3Judge(passes: bool)
      modifies `r3J, `r3JAttempts
      ensures r3JAttempts == old(r3JAttempts) + 1 && r3J == (if passes then Passed else Failed)
    {
      r3J, r3JAttempts := Running, r3JAttempts + 1;
      r3J := if passes then Passed else Failed;
    }

    /** One turn of the judge loop of _run_r3_analysis: a failed verdict calls the worker again. */
    method R3Round(wMax: int, jMax: int, worker: nat -> Analysis, passes: bool, first: nat,
                   cancel: CancelEvent, budget: nat, ghost decision0: string, ghost input0: bool)
      returns (end: End, worked: nat, judged: nat)
      requires Follows(worker, first, decision0, input0)
      modifies `r3W, `r3WAttempts, `r3J, `r3JAttempts, `hasExternalInput, `r4Decision, cancel
      ensures old(cancel.Seen()) ==> cancel.Seen()
      ensures r3WAttempts == old(r3WAttempts) + worked && r3JAttempts == old(r3JAttempts) + judged
      ensures judged <= 1 && worked + judged <= budget && !end.Cancelled?
      ensures worked > 0 ==> More(wMax, r3WAttempts - 1)
      ensures judged == 1 ==> More(jMax, r3JAttempts - 1) && r3J == (if passes then Passed else Failed)
      ensures judged == 0 ==> r3J == old(r3J)
      ensures Follows(worker, first + worked, decision0, input0)
      ensures end.Waiting? ==> worked + judged == budget
      ensures end.Settled? <==> judged == 1 && passes
      ensures end.Again? ==> judged == 1
      ensures end.Spent? ==> judged == 0 && (cancel.Seen() || !More(jMax, r3JAttempts) || r3J == Passed)
      ensures end.Settled? ==> worked == 0
      ensures old(r3J) == Passed ==> judged == 0
      ensures judged == 0 ==> worked == 0
      ensures Answered(worker, first, first + worked, if judged == 1 && !passes then 1 else 0,
                       !end.Waiting? && !cancel.Seen() && More(wMax, r3WAttempts))
    {
      worked, judged := 0, 0;
      var more := ShouldContinue(r3JAttempts, jMax, cancel);
      if !more || r3J == Passed { return Spent, worked, judged; }
      if budget == 0 { return Waiting, worked, judged; }
      R3Judge(passes);
      judged := 1;
      if passes { return Settled, worked, judged; }
      r3W := Pending;
      var back;
      back, worked := R3Worker(wMax, worker, first, cancel, budget - 1, decision0, input0);
      return if back then Again else Waiting, worked, judged;
    }

    /** A turn of the judge loop, `worked0` and `judged0` being the attempts before the loop. */
    method R3Turn(wMax: int, jMax: int, worker: nat -> Analysis, judge: nat -> bool, first: nat, worked0: nat, judged0: nat,
                  worked: nat, judged: nat, cancel: CancelEvent, budget: nat, ghost decision0: string, ghost input0: bool)
      returns (end: End, n: nat, m: nat)
      requires Follows(worker, first + worked, decision0, input0)
      requires r3WAttempts == worked0 + worked && r3JAttempts == judged0 + judged && worked + judged <= budget
      requires Looping(wMax, jMax, worker, judge, first, worked0, judged0, worked, judged, cancel.Seen())
      modifies `r3W, `r3WAttempts, `r3J, `r3JAttempts, `hasExternalInput, `r4Decision, cancel
      ensures old(cancel.Seen()) ==> cancel.Seen()
      ensures r3WAttempts == worked0 + n && r3JAttempts == judged0 + m && n + m <= budget
      ensures judged <= m <= judged + 1 && (old(r3J) == Passed ==> m == judged)
      ensures Follows(worker, first + n, decision0, input0)
      ensures LoopedUpTo(wMax, jMax, worker, judge, first, worked0, judged0, n, m, end.Waiting? || cancel.Seen())
      ensures end.Waiting? ==> n + m == budget
      ensures end.Again? ==>
        m == judged + 1 && r3J == Failed && Looping(wMax, jMax, worker, judge, first, worked0, judged0, n, m, cancel.Seen())
      ensures !end.Waiting? && !end.Again? && !cancel.Seen() ==>
        (m == judged + 1 && judge(judged)) || !More(jMax, r3JAttempts) || (m == judged && old(r3J) == Passed)
    {
      ghost var seen := cancel.Seen();
      var w, j;
      end, w, j := R3Round(wMax, jMax, worker, judge(judged), first + worked, cancel, budget - worked - judged, decision0, input0);
      JudgeTurn(wMax, jMax, worker, judge, first, worked0, judged0, worked, judged, seen, end, w, j, cancel.Seen());
      n, m := worked + w, judged + j;
    }

    /** The judge loop of _run_r3_analysis. */
    method R3JudgeLoop(wMax: int, jMax: int, worker: nat -> Analysis, judge: nat -> bool, first: nat,
                       cancel: CancelEvent, budget: nat, ghost decision0: string, ghost input0: bool)
      returns (done: bool, worked: nat, judged: nat)
      requires Follows(worker, first, decision0, input0)
      modifies `r3W, `r3WAttempts, `r3J, `r3JAttempts, `hasExternalInput, `r4Decision, cancel
      ensures old(cancel.Seen()) ==> cancel.Seen()
      ensures r3WAttempts == old(r3WAttempts) + worked && r3JAttempts == old(r3JAttempts) + judged
      ensures !done ==> worked + judged == budget
      ensures old(r3J) == Passed ==> judged == 0
      ensures Follows(worker, first + worked, decision0, input0)
      ensures LoopedUpTo(wMax, jMax, worker, judge, first, old(r3WAttempts), old(r3JAttempts), worked, judged,
                         !done || cancel.Seen())
      ensures done && !cancel.Seen() && old(r3J) != Passed ==>
        (judged > 0 && judge(judged - 1)) || !More(jMax, r3JAttempts)
    {
      worked, judged := 0, 0;
      var worked0, judged0 := r3WAttempts, r3JAttempts;
      while true
        invariant old(cancel.Seen()) ==> cancel.Seen()
        invariant worked + judged <= budget
        invariant r3WAttempts == worked0 + worked && r3JAttempts == judged0 + judged
        invariant Looping(wMax, jMax, worker, judge, first, worked0, judged0, worked, judged, cancel.Seen())
        invariant if judged == 0 then r3J == old(r3J) else r3J != Passed && old(r3J) != Passed
        invariant Follows(worker, first + worked, decision0, input0)
        decreases budget - judged
      {
        var end;
        end, worked, judged := R3Turn(wMax, jMax, worker, judge, first, worked0, judged0, worked, judged, cancel, budget, decision0, input0);
        if !end.Again? { return !end.Waiting?, worked, judged; }
      }
    }

    /** The part of _run_r3_analysis after its worker: without external input the judge is skipped. */
    method R3Judging(wMax: int, jMax: int, worker: nat -> Analysis, judge: nat -> bool, first: nat,
                     cancel: CancelEvent, budget: nat, ghost decision0: string, ghost input0: bool)
      returns (done: bool, worked: nat, judged: nat)
      requires Follows(worker, first, decision0, input0)
      modifies `r3W, `r3WAttempts, `r3J, `r3JAttempts, `hasExternalInput, `r4Decision, cancel
      ensures old(cancel.Seen()) ==> cancel.Seen()
      ensures r3WAttempts == old(r3WAttempts) + worked && r3JAttempts == old(r3JAttempts) + judged
      ensures !done ==> worked + judged == budget
      ensures Follows(worker, first + worked, decision0, input0)
      ensures LoopedUpTo(wMax, jMax, worker, judge, first, old(r3WAttempts), old(r3JAttempts), worked, judged,
                         !done || cancel.Seen())
      ensures old(r3W) == Passed && !old(hasExternalInput) ==> done && r3J == Passed
      ensures old(r3W) != Passed || !old(hasExternalInput) || old(r3J) == Passed ==> judged == 0
      ensures done && !cancel.Seen() && old(r3W) == Passed && old(hasExternalInput) && old(r3J) != Passed ==>
        (judged > 0 && judge(judged - 1)) || !More(jMax, r3JAttempts)
    {
      worked, judged, done := 0, 0, true;
      if r3W == Passed {
        if !hasExternalInput {
          r3J := Passed;
        } else {
          done, worked, judged := R3JudgeLoop(wMax, jMax, worker, judge, first, cancel, budget, decision0, input0);
        }
      }
    }

    /** _run_r3_analysis up to its judge: the worker, between two looks at the cancel event. */
    method R3Begin(wMax: int, worker: nat -> Analysis, cancel: CancelEvent, budget: nat,
                   ghost decision0: string, ghost input0: bool)
      returns (done: bool, stop: bool, worked: nat)
      requires Follows(worker, 0, decision0, input0)
      modifies `r3W, `r3WAttempts, `hasExternalInput, `r4Decision, cancel
      ensures old(cancel.Seen()) ==> cancel.Seen()
      ensures r3WAttempts == old(r3WAttempts) + worked && worked <= budget
      ensures worked > 0 ==> More(wMax, r3WAttempts - 1)
      ensures !done ==> worked == budget
      ensures stop ==> cancel.Seen()
      ensures old(cancel.Seen()) ==> stop && done && worked == 0
      ensures done && !stop ==> r3W == Passed || !More(wMax, r3WAttempts)
      ensures old(r3W) == Passed ==> worked == 0 && r3W == Passed
      ensures old(r3W) != Passed ==> (r3W == Passed <==> worked > 0 && !Crashes(worker(worked - 1)))
      ensures CameBack(worker, worked) == if r3W == Passed && old(r3W) != Passed then 1 else 0
      ensures forall k :: 0 <= k < worked - 1 ==> Crashes(worker(k))
      ensures Follows(worker, worked, decision0, input0)
    {
      done, worked := true, 0;
      stop := cancel.IsSet();
      if stop { return; }
      if r3W != Passed {
        done, worked := R3Worker(wMax, worker, 0, cancel, budget, decision0, input0);
        if !done { return; }
      }
      stop := cancel.IsSet();
    }

    /** _run_r3_analysis. */
    method RunR3(wMax: int, jMax: int, worker: nat -> Analysis, judge: nat -> bool,
                 cancel: CancelEvent, horizon: nat)
      returns (done: bool, worked: nat, judged: nat)
      modifies `r3W, `r3WAttempts, `r3J, `r3JAttempts, `hasExternalInput, `r4Decision, cancel
      ensures old(cancel.Seen()) ==> cancel.Seen()
      ensures old(cancel.Seen()) ==> done && worked == judged == 0
      ensures !done ==> worked + judged == horizon
      ensures r3WAttempts == old(r3WAttempts) + worked && r3JAttempts == old(r3JAttempts) + judged
      ensures wMax != -1 ==> worked <= Quota(wMax, old(r3WAttempts))
      ensures jMax != -1 ==> judged <= Quota(jMax, old(r3JAttempts))
      ensures wMax != -1 && jMax != -1 && horizon > Quota(wMax, old(r3WAttempts)) + Quota(jMax, old(r3JAttempts)) ==> done
      ensures forall k :: 0 <= k < judged - 1 ==> !judge(k)
      ensures hasExternalInput == InputAfter(worker, worked, old(hasExternalInput))
      ensures r4Decision == if done && !cancel.Seen() && !hasExternalInput then "filter"
                            else DecisionAfter(worker, worked, old(r4Decision))
      ensures done && !cancel.Seen() ==> R3Ends(wMax, jMax, worker, judge, worked, judged, old(Now()))
    {
      ghost var decision0, input0 := r4Decision, hasExternalInput;
      judged := 0;
      var stop;
      done, stop, worked := R3Begin(wMax, worker, cancel, horizon, decision0, input0);
      if !done || stop { return; }
      var w;
      done, w, judged := R3Judging(wMax, jMax, worker, judge, worked, cancel, horizon - worked, decision0, input0);
      worked := worked + w;
      if !done { return; }
      stop := cancel.IsSet();
      if stop { return true, worked, judged; }
      if !hasExternalInput { r4Decision := "filter"; }
      done := true;
    }

    /** _run_r4_for_func: looks at the limit and the cancel event once more before it calls. */
    method R4Worker(max: int, o: Outcome, cancel: CancelEvent, ready: bool) returns (done: bool, worked: nat)
      requires r4 != Passed && More(max, r4Attempts)
      modifies `r4, `r4Attempts, `r4Decision, cancel
      ensures old(cancel.Seen()) ==> cancel.Seen()
      ensures !done ==> !ready && worked == 0 && r4 != Passed && r4Attempts == old(r4Attempts)
      ensures r4Attempts == old(r4Attempts) + worked && worked <= 1
      ensures done && worked == 0 ==> cancel.Seen() && r4 == Passed && r4Decision == "keep"
      ensures worked == 1 ==> ready && r4Decision == Resolve(o) && r4 == (if o.Broken? then Passed else Running)
      ensures worked == 1 ==> r4Decision == if o.Decided? then o.decision else "keep"
    {
      var more := ShouldContinue(r4Attempts, max, cancel);
      if !more {
        r4, r4Decision := Passed, "keep";
        return true, 0;
      }
      if !ready { return false, 0; }
      r4, r4Attempts := Running, r4Attempts + 1;
      match o {
        case Broken => r4, r4Decision := Passed, "keep";
        case NoResult => r4Decision := "keep";
        case Decided(decision) => r4Decision := decision;
      }
      return true, 1;
    }

    /** _run_r4_j. */
    method R4Judge(passes: bool)
      modifies `r4J, `r4JAttempts
      ensures r4JAttempts == old(r4JAttempts) + 1 && r4J == (if passes then Passed else Failed)
    {
      r4J, r4JAttempts := Running, r4JAttempts + 1;
      r4J := if passes then Passed else Failed;
    }

    /** One turn of the R4 loop, after its guard. */
    method R4Round(wMax: int, jMax: int, o: Outcome, passes: bool, cancel: CancelEvent, budget: nat)
      returns (end: End, worked: nat, judged: nat)
      requires r4 != Passed && More(wMax, r4Attempts)
      modifies `r4, `r4Attempts, `r4J, `r4JAttempts, `r4Decision, cancel
      ensures old(cancel.Seen()) ==> cancel.Seen()
      ensures judged <= worked <= 1 && worked + judged <= budget
      ensures r4Attempts == old(r4Attempts) + worked && r4JAttempts == old(r4JAttempts) + judged
      ensures worked == 1 ==> r4Decision == Resolve(o)
      ensures end.Waiting? ==> judged == 0 && worked == budget
      ensures !end.Waiting? ==> worked == judged == 1 || cancel.Seen()
      ensures !end.Waiting? && worked == 0 ==> r4Decision == "keep"
      ensures end.Again? ==> worked == judged == 1 && !passes && More(jMax, r4JAttempts)
                             && (r4 == Passed <==> o.Broken?) && r4J == Pending
      ensures end.Settled? ==> worked == judged == 1 && passes && r4 == Passed && r4J == Passed
      ensures end.Spent? ==> worked == judged == 1 && !passes && r4 == Passed && (cancel.Seen() || !More(jMax, r4JAttempts))
      ensures end.Cancelled? ==> cancel.Seen()
    {
      judged := 0;
      var called;
      called, worked := R4Worker(wMax, o, cancel, budget > 0);
      if !called { return Waiting, worked, judged; }
      var stop := cancel.IsSet();
      if stop { return Cancelled, worked, judged; }
      if worked == budget { return Waiting, worked, judged; }
      R4Judge(passes);
      judged := 1;
      if passes {
        r4 := Passed;
        return Settled, worked, judged;
      }
      var more := ShouldContinue(r4JAttempts, jMax, cancel);
      if !more {
        r4 := Passed;
        return Spent, worked, judged;
      }
      r4J := Pending;
      return Again, worked, judged;
    }

    /** The loop of the R4 block of _func_pipeline. */
    method R4Loop(wMax: int, jMax: int, worker: nat -> Outcome, judge: nat -> bool,
                  cancel: CancelEvent, horizon: nat)
      returns (done: bool, worked: nat, judged: nat)
      requires r4Decision == "keep" && r4 != Passed
      modifies `r4, `r4Attempts, `r4J, `r4JAttempts, `r4Decision, cancel
      ensures old(cancel.Seen()) ==> cancel.Seen()
      ensures done ==> r4 == Passed
      ensures old(cancel.Seen()) ==> worked == 0
      ensures judged <= worked <= judged + 1 && r4Attempts == old(r4Attempts) + worked
      ensures r4JAttempts == old(r4JAttempts) + judged
      ensures wMax != -1 ==> worked <= Quota(wMax, old(r4Attempts))
      ensures !done ==> worked + judged == horizon
      ensures wMax != -1 && horizon >= 2 * Quota(wMax, old(r4Attempts)) ==> done
      ensures done && !cancel.Seen() ==> worked == judged
      ensures done && worked == 0 ==> r4Decision == "keep"
      ensures done && !cancel.Seen() && worked > 0 ==> r4Decision == Resolve(worker(worked - 1))
      ensures done && !cancel.Seen() ==> (r4Decision != "keep" <==> worked > 0 && Removes(worker(worked - 1)))
      ensures forall k :: 0 <= k < judged - 1 ==> !judge(k) && !worker(k).Broken?
      ensures done && !cancel.Seen() ==>
        || (judged > 0 && (judge(judged - 1) || worker(judged - 1).Broken? || !More(jMax, r4JAttempts)))
        || !More(wMax, r4Attempts)
    {
      worked, judged := 0, 0;
      while true
        invariant old(cancel.Seen()) ==> cancel.Seen()
        invariant worked == judged && worked + judged <= horizon && r4Attempts == old(r4Attempts) + worked
        invariant r4JAttempts == old(r4JAttempts) + judged && (old(cancel.Seen()) ==> worked == 0)
        invariant worked == 0 ==> r4Decision == "keep" && r4 != Passed
        invariant worked > 0 ==> r4Decision == Resolve(worker(worked - 1)) && (r4 == Passed <==> worker(worked - 1).Broken?)
        invariant wMax != -1 ==> worked <= Quota(wMax, old(r4Attempts))
        invariant forall k :: 0 <= k < judged ==> !judge(k)
        invariant forall k :: 0 <= k < judged - 1 ==> !worker(k).Broken?
        decreases horizon - worked
      {
        var more := ShouldContinue(r4Attempts, wMax, cancel);
        if !more || r4 == Passed { break; }
        var end, w, j := R4Round(wMax, jMax, worker(worked), judge(judged), cancel, horizon - worked - judged);
        worked, judged := worked + w, judged + j;
        if end.Waiting? { return false, worked, judged; }
        if !end.Again? { break; }
      }
      if r4 != Passed { r4 := Passed; }
      done := true;
    }

    /** With one worker call allowed, an answer that drops the function stands although the judge
        rejects it. */
    method RejectedAnswerStands(answer: string, judge: nat -> bool, jMax: int, cancel: CancelEvent) returns (judged: nat)
      requires r4Decision == "keep" && r4 != Passed && r4Attempts == 0 && answer != "keep" && !judge(0)
      modifies `r4, `r4Attempts, `r4J, `r4JAttempts, `r4Decision, cancel
      ensures !cancel.Seen() ==> judged == 1 && r4 == Passed && r4Decision == answer
    {
      var done, worked;
      done, worked, judged := R4Loop(1, jMax, k => Decided(answer), judge, cancel, 2);
    }

    /** The R4 block of _func_pipeline. */
    method RunR4(quickKeep: bool, wMax: int, jMax: int, worker: nat -> Outcome, judge: nat -> bool,
                 cancel: CancelEvent, horizon: nat)
      returns (done: bool, worked: nat, judged: nat)
      requires !cancel.Seen()
      modifies `r4, `r4Attempts, `r4J, `r4JAttempts, `r4Decision, cancel
      ensures old(r4Decision) != "keep" || old(r4) == Passed ==> r4 == old(r4)
      ensures old(r4Decision) != "keep" || old(r4) == Passed || quickKeep
              ==> done && worked == judged == 0 && r4Decision == old(r4Decision)
      ensures done && old(r4Decision) == "keep" ==> r4 == Passed
      ensures wMax != -1 ==> worked <= Quota(wMax, old(r4Attempts))
      ensures !done ==> worked + judged == horizon
      ensures wMax != -1 && horizon >= 2 * Quota(wMax, old(r4Attempts)) ==> done
      ensures done && !cancel.Seen() ==> worked == judged
      ensures done && worked == 0 ==> r4Decision == old(r4Decision)
      ensures done && !cancel.Seen() && worked > 0 ==> r4Decision == Resolve(worker(worked - 1))
      ensures r4Attempts == old(r4Attempts) + worked && r4JAttempts == old(r4JAttempts) + judged
      ensures done && !cancel.Seen() ==>
        R4Ends(quickKeep, wMax, jMax, worker, judge, worked, judged, old(Now()), old(r4Decision), r4Decision)
    {
      if r4Decision != "keep" || r4 == Passed { return true, 0, 0; }
      if quickKeep {
        r4Decision, r4 := "keep", Passed;
        return true, 0, 0;
      }
      done, worked, judged := R4Loop(wMax, jMax, worker, judge, cancel, horizon);
    }

    /** What a stage finds when it begins. */
    function Now(): Start reads this {
      Start(r2J == Passed, r2JAttempts, sourceIncomplete, r3W == Passed, r3WAttempts, r3J == Passed, r3JAttempts,
            hasExternalInput, r4Decision, r4 == Passed, r4Attempts, r4JAttempts, r5 == Passed)
    }

    /** The part of _func_pipeline up to R3. */
    method LineCheck(limits: Limits, answers: Answers, cancel: CancelEvent, horizon: nat)
      returns (done: bool, go: bool, calls: Calls)
      modifies `r2J, `r2JAttempts, `r2W, `r2WAttempts, `sourceIncomplete, cancel
      ensures old(cancel.Seen()) ==> cancel.Seen()
      ensures calls == Calls(calls.r2Judge, calls.r2Worker, 0, 0, 0, 0)
      ensures go ==> done && r2J == Passed && !cancel.Seen()
      ensures old(cancel.Seen()) ==> done && !go && calls.r2Judge == calls.r2Worker == 0
      ensures !done ==> calls.r2Judge + calls.r2Worker == horizon
      ensures Enough(limits.r2, limits.r2, old(r2JAttempts), old(r2JAttempts), horizon) ==> done
      ensures done && !cancel.Seen() ==>
        if old(r2J) != Passed && old(sourceIncomplete) then !go && calls == Calls(0, 0, 0, 0, 0, 0)
        else go && R2Ended(limits, answers, calls, old(Now()))
    {
      calls := Calls(0, 0, 0, 0, 0, 0);
      var stop := cancel.IsSet();
      if stop { return true, false, calls; }
      if r2J != Passed {
        var j, f;
        done, j, f := RunR2(answers.script, limits.r2, answers.r2Judge, answers.r2Worker, cancel, horizon);
        calls := calls.(r2Judge := j, r2Worker := f);
        if !done { return false, false, calls; }
      }
      stop := cancel.IsSet();
      done, go := true, !stop && r2J == Passed;
    }

    /** The part of _func_pipeline between R2 and the report: R3, and R4 for a function decided keep. */
    method Analyse(limits: Limits, answers: Answers, cancel: CancelEvent, horizon: nat)
      returns (done: bool, stop: bool, calls: Calls)
      modifies `r3W, `r3WAttempts, `r3J, `r3JAttempts, `hasExternalInput
      modifies `r4, `r4Attempts, `r4J, `r4JAttempts, `r4Decision, cancel
      ensures old(cancel.Seen()) ==> cancel.Seen()
      ensures calls == Calls(0, 0, calls.r3Worker, calls.r3Judge, calls.r4Worker, calls.r4Judge)
      ensures stop ==> cancel.Seen() && calls.r4Worker == calls.r4Judge == 0 && r4 == old(r4)
      ensures done && !stop && r4Decision == "keep" ==> r4 == Passed && hasExternalInput
      ensures !done ==> horizon in {calls.r3Worker + calls.r3Judge, calls.r4Worker + calls.r4Judge}
      ensures hasExternalInput == InputAfter(answers.r3Worker, calls.r3Worker, old(hasExternalInput))
      ensures done && !cancel.Seen() ==> R3Ended(limits, answers, calls, old(Now()))
      ensures done && !cancel.Seen() ==> R4Ended(limits, answers, calls, old(Now()), r4Decision)
      ensures Enough(limits.r3Worker, limits.r3Judge, old(r3WAttempts), old(r3JAttempts), horizon) ==>
              Enough(limits.r4Worker, limits.r4Worker, old(r4Attempts), old(r4Attempts), horizon) ==> done
    {
      stop, calls := false, Calls(0, 0, 0, 0, 0, 0);
      var w, j;
      done, w, j := RunR3(limits.r3Worker, limits.r3Judge, answers.r3Worker, answers.r3Judge, cancel, horizon);
      calls := calls.(r3Worker := w, r3Judge := j);
      if !done { return; }
      stop := cancel.IsSet();
      if stop { return; }
      stop := cancel.IsSet();
      if stop { return; }
      done, w, j := RunR4(answers.quickKeep, limits.r4Worker, limits.r4Judge, answers.r4Worker, answers.r4Judge, cancel, horizon);
      calls := calls.(r4Worker := w, r4Judge := j);
    }

    /** _func_pipeline from its line check to its report; `reported` is the call of R5. */
    method FuncPipeline(limits: Limits, answers: Answers, hasOutDir: bool, fileCount: nat,
                        cancel: CancelEvent, horizon: nat)
      returns (done: bool, reported: bool, calls: Calls)
      modifies this, cancel
      ensures old(cancel.Seen()) ==> cancel.Seen()
      ensures old(cancel.Seen()) ==> done && !reported && calls == Calls(0, 0, 0, 0, 0, 0)
      ensures reported ==> done && hasExternalInput && r4Decision == "keep"
      ensures reported ==> hasOutDir && r2J == Passed && r4 == Passed && old(r5) != Passed
      ensures hasExternalInput == InputAfter(answers.r3Worker, calls.r3Worker, old(hasExternalInput))
      // a function that R2 gave up earlier is left alone, and any other goes through R2, R3 and R4 in turn
      ensures done && !cancel.Seen() ==>
        if old(r2J) != Passed && old(sourceIncomplete) then !reported && calls == Calls(0, 0, 0, 0, 0, 0)
        else Completed(limits, answers, calls, old(Now()), r4Decision)
             && (reported <==> hasOutDir && r4Decision == "keep" && old(r5) != Passed)
      // it waits only where a stage has used up the horizon, and ends within one that covers finite limits
      ensures !done ==> horizon in {calls.r2Judge + calls.r2Worker, calls.r3Worker + calls.r3Judge, calls.r4Worker + calls.r4Judge}
      ensures AllEnough(limits, old(Now()), horizon) ==> done
    {
      var go, stop, earlier;
      reported := false;
      done, go, calls := LineCheck(limits, answers, cancel, horizon);
      if !go { return; }
      earlier := calls;
      ghost var between := Now();
      done, stop, calls := Analyse(limits, answers, cancel, horizon);
      if done && !cancel.Seen() {
        StagesCompleted(limits, answers, earlier, calls, old(Now()), between, r4Decision);
      }
      calls := calls.(r2Judge := earlier.r2Judge, r2Worker := earlier.r2Worker);
      if !done || stop { return; }
      var confirmed := r4 == Passed || fileCount <= 1;
      reported := hasOutDir && r4Decision == "keep" && confirmed && r5 != Passed;
    }
  }

  /** The state of a function before its pipeline: what has passed, the attempts made, and the decision so far. */
  datatype Start = Start(
    r2Passed: bool, r2Judged: nat, givenUp: bool, r3Passed: bool, r3Worked: nat, r3Accepted: bool, r3Judged: nat,
    input: bool, decision: string, r4Passed: bool, r4Worked: nat, r4Judged: nat, r5Passed: bool)

  /** The limits are finite, and the horizon covers the calls that they leave. */
  predicate Enough(a: int, b: int, aUsed: nat, bUsed: nat, horizon: nat) {
    a != -1 && b != -1 && horizon > Quota(a, aUsed) + Quota(b, bUsed)
  }

  predicate AllEnough(limits: Limits, s: Start, horizon: nat) {
    && Enough(limits.r2, limits.r2, s.r2Judged, s.r2Judged, horizon)
    && Enough(limits.r3Worker, limits.r3Judge, s.r3Worked, s.r3Judged, horizon)
    && Enough(limits.r4Worker, limits.r4Worker, s.r4Worked, s.r4Worked, horizon)
  }

  predicate Completed(limits: Limits, answers: Answers, calls: Calls, s: Start, decision: string) {
    && R2Ended(limits, answers, calls, s)
    && R3Ended(limits, answers, calls, s)
    && R4Ended(limits, answers, calls, s, decision)
  }

  lemma StagesCompleted(limits: Limits, answers: Answers, earlier: Calls, later: Calls, s: Start, t: Start, decision: string)
    requires R2Ended(limits, answers, earlier, s) && R3Ended(limits, answers, later, t) && R4Ended(limits, answers, later, t, decision)
    requires t == s.(r2Passed := t.r2Passed, r2Judged := t.r2Judged, givenUp := t.givenUp)
    ensures Completed(limits, answers, later.(r2Judge := earlier.r2Judge, r2Worker := earlier.r2Worker), s, decision)
  {
  }

  /** R2 asks nobody if it has passed before or the script passes; otherwise it stops at the first verdict
      that accepts, or with the limit spent. */
  predicate R2Ended(limits: Limits, answers: Answers, calls: Calls, s: Start) {
    && (s.r2Passed || answers.script ==> calls.r2Judge == calls.r2Worker == 0)
    && (calls.r2Judge == 0 || calls.r2Judge == calls.r2Worker + 1)
    && (forall k :: 0 <= k < calls.r2Judge - 1 ==> answers.r2Judge(k).Fail?)
    && (!s.r2Passed && !answers.script && (calls.r2Judge == 0 || answers.r2Judge(calls.r2Judge - 1).Fail?)
        ==> limits.r2 != -1 && calls.r2Judge == Quota(limits.r2, s.r2Judged))
  }

  predicate R3Ended(limits: Limits, answers: Answers, calls: Calls, s: Start) {
    R3Ends(limits.r3Worker, limits.r3Judge, answers.r3Worker, answers.r3Judge, calls.r3Worker, calls.r3Judge, s)
  }

  /** One analysis comes back, and one more for each rejection, as far as the limit goes; in the end the
      judge accepts, or is not asked because there is no external input, or has no call left. */
  predicate R3Ends(wMax: int, jMax: int, worker: nat -> Analysis, judge: nat -> bool, n: nat, j: nat, s: Start) {
    var rejections := Rejections(judge, j);
    && Answered(worker, 0, n, rejections + (if s.r3Passed then 0 else 1), More(wMax, s.r3Worked + n))
    && (rejections == 0 ==> forall k :: 0 <= k < n - 1 ==> Crashes(worker(k)))
    && (forall k :: 0 <= k < j - 1 ==> !judge(k))
    && (j > 0 && rejections == 0 ==> InputAfter(worker, n, s.input))
    && (j > 0 ==> judge(j - 1) || !More(jMax, s.r3Judged + j))
    && (j == 0 ==> || !InputAfter(worker, n, s.input) || s.r3Accepted || !More(jMax, s.r3Judged)
                   || (!s.r3Passed && CameBack(worker, n) == 0))
  }

  /** The decision that R3 leaves. */
  function AfterR3(answers: Answers, n: nat, s: Start): string {
    if InputAfter(answers.r3Worker, n, s.input) then DecisionAfter(answers.r3Worker, n, s.decision) else "filter"
  }

  predicate R4Ended(limits: Limits, answers: Answers, calls: Calls, s: Start, decision: string) {
    R4Ends(answers.quickKeep, limits.r4Worker, limits.r4Judge, answers.r4Worker, answers.r4Judge,
           calls.r4Worker, calls.r4Judge, s, AfterR3(answers, calls.r3Worker, s), decision)
  }

  /** R4 decides over a function that R3 keeps, as its last worker call says. There is none on the quick path
      or without an attempt left; otherwise it stops when the judge accepts, the worker breaks, or a limit is spent. */
  predicate R4Ends(quickKeep: bool, wMax: int, jMax: int, worker: nat -> Outcome, judge: nat -> bool,
                   n: nat, j: nat, s: Start, before: string, decision: string)
  {
    if before != "keep" || s.r4Passed || quickKeep then n == j == 0 && decision == before
    else
      && j == n
      && (forall k :: 0 <= k < n - 1 ==> !judge(k) && !worker(k).Broken?)
      && (if n == 0 then decision == "keep" && !More(wMax, s.r4Worked)
          else && decision == (if worker(n - 1).Decided? then worker(n - 1).decision else "keep")
               && (judge(n - 1) || worker(n - 1).Broken? || !More(jMax, s.r4Judged + n) || !More(wMax, s.r4Worked + n)))
  }

  /** An answer that removes the function and is accepted at once settles it, off the quick path and with
      an attempt left: whatever R3 said, the function is not kept. */
  lemma RemovalSettles(limits: Limits, answers: Answers, calls: Calls, s: Start, decision: string)
    requires Completed(limits, answers, calls, s, decision)
    requires !s.r4Passed && !answers.quickKeep && More(limits.r4Worker, s.r4Worked)
    requires answers.r4Worker(0).Decided? && answers.r4Worker(0).decision != "keep" && answers.r4Judge(0)
    ensures decision != "keep"
  {
  }

  /** A new function whose first analysis comes back and is accepted is decided by that analysis, and by R4
      only if it is kept. */
  lemma FirstAnalysisDecides(limits: Limits, answers: Answers, calls: Calls, s: Start, decision: string)
    requires Completed(limits, answers, calls, s, decision)
    requires !s.r3Passed && !s.r3Accepted && More(limits.r3Worker, s.r3Worked)
    requires answers.r3Worker(0).Parsed? && !answers.r3Worker(0).crashed && answers.r3Worker(0).decision in {"keep", "filter"}
    requires answers.r3Judge(0) && More(limits.r3Judge, s.r3Judged)
    ensures var a := answers.r3Worker(0);
            && calls.r3Worker == 1
            && calls.r3Judge == (if a.hasInput then 1 else 0)
            && (decision == "keep" ==> a.hasInput && a.decision == "keep")
            && (!(a.hasInput && a.decision == "keep") ==> decision == "filter" && calls.r4Worker == 0)
  {
  }

  /** How often each agent was called. */
  datatype Calls = Calls(r2Judge: nat, r2Worker: nat, r3Worker: nat, r3Judge: nat, r4Worker: nat, r4Judge: nat)

  /** The configured round limits. */
  datatype Limits = Limits(r2: int, r3Worker: int, r3Judge: int, r4Worker: int, r4Judge: int)

  /** Everything the outside decides for one function. */
  datatype Answers = Answers(
    script: bool, r2Judge: nat -> Verdict, r2Worker: nat -> Repair,
    r3Worker: nat -> Analysis, r3Judge: nat -> bool,
    quickKeep: bool, r4Worker: nat -> Outcome, r4Judge: nat -> bool)

  /** One of the first `n` verdicts skips or discards the function. */
  predicate GivenUp(judge: nat -> Verdict, n: nat) {
    n > 0 && (GivesUp(judge(n - 1)) || GivenUp(judge, n - 1))
  }

  /** One of the first `n` workers reports that the source breaks off. */
  predicate BrokenOff(worker: nat -> Repair, n: nat) {
    n > 0 && (worker(n - 1).SourceIncomplete? || BrokenOff(worker, n - 1))
  }
}
