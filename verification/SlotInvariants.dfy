/** What every interleaving of the slot protocol keeps. */
module SlotInvariants {
  import opened HeapQ
  import opened SlotProtocol

  /** The invariant without the clause that relates the queue to free slots. */
  ghost predicate Core(s: State) {
    1 <= s.capacity && 0 <= s.inUse && Entries(s) && Flags(s) && s.leases <= s.held <= s.tickets.Keys
  }

  ghost predicate NoIdle(s: State) {
    s.queue != {} ==> s.inUse >= s.capacity
  }

  /** Slots owed to leases and awards beyond those counted as used; zero when conserved. */
  ghost function Slack(s: State): int {
    |s.leases| + |Pending(s)| - s.inUse
  }

  /** `s'` arises from `s` by serving the best waiters and nobody else. */
  ghost predicate ServedInOrder(s: State, s': State) {
    && s'.queue <= s.queue
    && s'.tickets.Keys == s.tickets.Keys
    && (forall e :: e in s.queue && e !in s'.queue ==> e.sequence in s'.tickets && s'.tickets[e.sequence].awarded)
    && (forall e, f :: e in s.queue && e !in s'.queue && f in s'.queue ==> Before(e, f))
    && (forall t :: t in s.tickets && (forall e :: e in s.queue ==> e.sequence != t) ==> s'.tickets[t] == s.tickets[t])
    && s'.leases == s.leases && s'.held == s.held && s'.capacity == s.capacity
    && s'.sequence == s.sequence && s'.acquires == s.acquires
  }

  lemma QueueIds(s: State, e: Entry, f: Entry)
    requires Entries(s) && e in s.queue && f in s.queue && e.sequence == f.sequence
    ensures e == f
  {
  }

  lemma AwardEffects(s: State)
    requires Core(s) && s.queue != {}
    ensures Core(Award(s)) && ServedInOrder(s, Award(s))
    ensures Award(s).inUse == s.inUse && Slack(Award(s)) == Slack(s) + 1
    ensures Award(s).queue == s.queue - {Least(s.queue)}
  {
    var e := Least(s.queue);
    var s' := Award(s);
    assert Queued(s.tickets[e.sequence]);
    forall f | f in s'.queue ensures f.sequence != e.sequence && Before(e, f) {
      if f.sequence == e.sequence { QueueIds(s, e, f); }
    }
    forall t | t in s'.tickets && Queued(s'.tickets[t]) ensures Entry(s'.tickets[t].priority, t) in s'.queue {
      assert t != e.sequence;
    }
    assert Pending(s') == Pending(s) + {e.sequence};
  }

  lemma PassOnEffects(s: State)
    requires Core(s)
    ensures Core(PassOn(s)) && ServedInOrder(s, PassOn(s))
    ensures PassOn(s).inUse <= s.inUse
    ensures NoIdle(s) ==> NoIdle(PassOn(s)) && PassOn(s).inUse >= s.inUse - 1
    ensures s.queue != {} || s.inUse > 0 ==> Slack(PassOn(s)) == Slack(s) + 1
  {
    if s.queue != {} {
      AwardEffects(s);
    } else {
      assert Pending(PassOn(s)) == Pending(s);
    }
  }

  lemma ServedTransitive(a: State, b: State, c: State)
    requires Core(a) && Core(b) && ServedInOrder(a, b) && ServedInOrder(b, c)
    ensures ServedInOrder(a, c)
  {
    forall e | e in a.queue && e !in c.queue ensures c.tickets[e.sequence].awarded {
      if e !in b.queue {
        assert b.tickets[e.sequence].awarded;
        assert forall f :: f in b.queue ==> f.sequence != e.sequence;
      }
    }
  }

  lemma {:induction false} PassOnManyEffects(s: State, n: nat)
    requires Core(s) && NoIdle(s)
    ensures var s' := PassOnMany(s, n);
            && Core(s') && NoIdle(s') && ServedInOrder(s, s') && s'.inUse <= s.inUse
            && (n <= s.inUse ==> Slack(s') == Slack(s) + n)
    decreases n
  {
    if n > 0 {
      PassOnEffects(s);
      PassOnManyEffects(PassOn(s), n - 1);
      ServedTransitive(s, PassOn(s), PassOnMany(s, n));
    }
  }

  lemma GrantOneEffects(s: State)
    requires Core(s) && s.queue != {}
    ensures var b := GrantOne(s);
            Core(b) && ServedInOrder(s, b) && Slack(b) == Slack(s) && b.inUse == s.inUse + 1
  {
    AwardEffects(s);
    assert Pending(GrantOne(s)) == Pending(Award(s));
  }

  lemma {:induction false} GrantEffects(s: State)
    requires Core(s)
    ensures var s' := Grant(s);
            && Core(s') && NoIdle(s') && ServedInOrder(s, s') && Slack(s') == Slack(s)
            && s.inUse <= s'.inUse <= Max(s.inUse, s.capacity)
    decreases |s.queue|
  {
    if s.inUse < s.capacity && s.queue != {} {
      var b := GrantOne(s);
      GrantOneEffects(s);
      GrantEffects(b);
      ServedTransitive(s, b, Grant(b));
    }
  }

  // ---- one step ----

  /** The one step that breaks the count: a release of a lease that is no longer registered, while
      slots are in use. */
  ghost predicate Leaky(s: State, step: Step) {
    step.Release? && step.l !in s.leases && s.inUse > 0
  }

  /** One ticket changes, and with it at most its own queue entry. */
  lemma Reticketed(s: State, s': State, t: nat, k: Ticket)
    requires Entries(s) && Flags(s) && s'.tickets == s.tickets[t := k]
    requires s.sequence <= s'.sequence && t <= s'.sequence && TicketOk(k, t in s'.held)
    requires s'.held == s.held || s'.held == s.held + {t}
    requires t in s.tickets ==> k.priority == s.tickets[t].priority
    requires s'.queue == if Queued(k) then s.queue + {Entry(k.priority, t)} else s.queue - {Entry(k.priority, t)}
    ensures Entries(s') && Flags(s')
    ensures Pending(s') == if k.waiting && k.awarded then Pending(s) + {t} else Pending(s) - {t}
  {
    forall e | e in s'.queue
      ensures e.sequence in s'.tickets && s'.tickets[e.sequence].priority == e.priority && Queued(s'.tickets[e.sequence])
    {
      if e != Entry(k.priority, t) {
        assert e in s.queue && e.sequence != t;
      }
    }
    forall u | u in s'.tickets && Queued(s'.tickets[u]) ensures Entry(s'.tickets[u].priority, u) in s'.queue {
      if u != t { assert Entry(s.tickets[u].priority, u) in s.queue; }
    }
  }

  lemma FreshTicket(s: State, n: nat, p: real)
    requires Inv(s) && n == s.sequence + 1
    ensures n !in s.tickets && n !in s.leases && n !in Pending(s) && Entry(p, n) !in s.queue
  {
  }

  lemma AcquireFastKeeps(s: State, p: real)
    requires Inv(s) && s.inUse < s.capacity
    ensures var s' := AcquireStep(s, p); Inv(s') && Slack(s') == Slack(s)
  {
    var n := s.sequence + 1;
    var s' := AcquireStep(s, p);
    FreshTicket(s, n, p);
    Reticketed(s, s', n, Ticket(p, true, false, false, false, false));
    assert |s'.leases| == |s.leases| + 1;
  }

  lemma AcquireSlowKeeps(s: State, p: real)
    requires Inv(s) && s.inUse >= s.capacity
    ensures var s' := AcquireStep(s, p); Inv(s') && Slack(s') == Slack(s)
  {
    var n := s.sequence + 1;
    var s' := AcquireStep(s, p);
    FreshTicket(s, n, p);
    Reticketed(s, s', n, Ticket(p, true, false, false, false, true));
  }

  lemma CheckClaims(s: State, t: nat)
    requires Inv(s) && t in s.tickets && s.tickets[t].waiting && s.tickets[t].awarded && !s.tickets[t].cancelled
    ensures var s' := CheckStep(s, t); Inv(s') && Slack(s') == Slack(s)
  {
    var s' := CheckStep(s, t);
    assert t in Pending(s) && t !in s.leases && Entry(s.tickets[t].priority, t) !in s.queue;
    Reticketed(s, s', t, s.tickets[t].(waiting := false));
    assert |s'.leases| == |s.leases| + 1;
  }

  lemma CheckWaits(s: State, t: nat)
    requires Inv(s) && t in s.tickets && Queued(s.tickets[t])
    ensures var s' := CheckStep(s, t); Inv(s') && Slack(s') == Slack(s)
  {
    assert t !in Pending(s);
    Reticketed(s, CheckStep(s, t), t, s.tickets[t].(woken := false));
  }

  lemma CheckKeeps(s: State, t: nat)
    requires Inv(s) && Enabled(s, Check(t))
    ensures var s' := CheckStep(s, t); Inv(s') && Slack(s') == Slack(s)
  {
    if s.tickets[t].awarded { CheckClaims(s, t); } else { CheckWaits(s, t); }
  }

  lemma WinnerLeaves(s: State, t: nat)
    requires Inv(s) && t in s.tickets && s.tickets[t].waiting && s.tickets[t].awarded
    ensures var m := Leave(s, t); Core(m) && NoIdle(m) && Slack(m) == Slack(s) - 1
  {
    assert t in Pending(s) && Entry(s.tickets[t].priority, t) !in s.queue;
    Reticketed(s, Leave(s, t), t, s.tickets[t].(waiting := false));
  }

  lemma QueuedCancels(s: State, t: nat)
    requires Inv(s) && t in s.tickets && Queued(s.tickets[t])
    ensures var s' := CancelStep(s, t); Inv(s') && Slack(s') == Slack(s)
  {
    assert t !in Pending(s);
    Reticketed(s, CancelStep(s, t), t, s.tickets[t].(cancelled := true, waiting := false));
  }

  lemma CancelKeeps(s: State, t: nat)
    requires Inv(s) && t in s.tickets && s.tickets[t].waiting
    ensures var s' := CancelStep(s, t);
            Inv(s') && (s.inUse > 0 || !s.tickets[t].awarded ==> Slack(s') == Slack(s))
  {
    if s.tickets[t].awarded {
      WinnerLeaves(s, t);
      PassOnEffects(Leave(s, t));
    } else {
      QueuedCancels(s, t);
    }
  }

  /** The lease object drops out of both tables before its slot is handed back. */
  function Unlease(s: State, l: nat): State {
    s.(leases := s.leases - {l}, held := s.held - {l})
  }

  lemma UnleaseKeeps(s: State, l: nat)
    requires Inv(s) && l in s.held
    ensures Core(Unlease(s, l)) && NoIdle(Unlease(s, l))
    ensures Slack(Unlease(s, l)) == Slack(s) - (if l in s.leases then 1 else 0)
  {
    assert Pending(Unlease(s, l)) == Pending(s);
    if l !in s.leases { assert s.leases - {l} == s.leases; }
  }

  lemma ReleaseKeeps(s: State, l: nat)
    requires Inv(s) && l in s.held
    ensures var s' := ReleaseStep(s, l);
            Inv(s') && (s.inUse > 0 ==> Slack(s') == Slack(s) + (if l in s.leases then 0 else 1))
  {
    var s1 := Unlease(s, l);
    UnleaseKeeps(s, l);
    if s.inUse > s.capacity {
      assert Pending(ReleaseStep(s, l)) == Pending(s1);
    } else {
      PassOnEffects(s1);
    }
  }

  function Unlist(s: State, dead: set<nat>): State {
    s.(leases := s.leases - dead)
  }

  lemma UnlistKeeps(s: State, dead: set<nat>)
    requires Inv(s) && dead <= s.leases
    ensures Core(Unlist(s, dead)) && NoIdle(Unlist(s, dead)) && Slack(Unlist(s, dead)) == Slack(s) - |dead|
  {
    assert Pending(Unlist(s, dead)) == Pending(s);
    assert s.leases == (s.leases - dead) + dead;
  }

  lemma ReclaimEffects(s: State, dead: set<nat>) returns (s': State)
    requires Inv(s) && dead <= s.leases
    ensures s' == Apply(s, Reclaim(dead)) && Inv(s') && ServedInOrder(Unlist(s, dead), s')
    ensures s'.inUse <= s.inUse && (|dead| <= s.inUse ==> Slack(s') == Slack(s))
  {
    UnlistKeeps(s, dead);
    s' := ManyServed(Unlist(s, dead), |dead|);
  }

  lemma ManyServed(m: State, n: nat) returns (s': State)
    requires Core(m) && NoIdle(m)
    ensures s' == PassOnMany(m, n) && Inv(s') && ServedInOrder(m, s')
    ensures s'.inUse <= m.inUse && (n <= m.inUse ==> Slack(s') == Slack(m) + n)
  {
    PassOnManyEffects(m, n);
    s' := PassOnMany(m, n);
  }

  lemma ReclaimKeeps(s: State, dead: set<nat>)
    requires Inv(s) && dead <= s.leases
    ensures var s' := Apply(s, Reclaim(dead)); Inv(s') && (|dead| <= s.inUse ==> Slack(s') == Slack(s))
  {
    var s' := ReclaimEffects(s, dead);
  }

  lemma SetCapacityKeeps(s: State, r: CapacityRequest)
    requires Inv(s)
    ensures var s' := Apply(s, SetCapacity(r)); Inv(s') && Slack(s') == Slack(s)
  {
    var s1 := s.(capacity := NormalizeLimit(r));
    assert Pending(s1) == Pending(s);
    GrantEffects(s1);
  }

  lemma CloseLoopKeeps(s: State, t: nat)
    requires Inv(s) && t in s.tickets
    ensures var s' := Apply(s, CloseLoop(t)); Inv(s') && Slack(s') == Slack(s)
  {
    assert Pending(Apply(s, CloseLoop(t))) == Pending(s);
  }

  /** Every step keeps the invariant, leaky or not. */
  lemma StepKeepsInv(s: State, step: Step)
    requires Inv(s) && Enabled(s, step)
    ensures Inv(Apply(s, step))
  {
    match step
    case Acquire(p) => if s.inUse < s.capacity { AcquireFastKeeps(s, p); } else { AcquireSlowKeeps(s, p); }
    case Check(t) => CheckKeeps(s, t);
    case Cancel(t) => CancelKeeps(s, t);
    case CloseLoop(t) => CloseLoopKeeps(s, t);
    case Release(l) => ReleaseKeeps(s, l);
    case SetCapacity(r) => SetCapacityKeeps(s, r);
    case Reclaim(dead) => ReclaimKeeps(s, dead);
  }

  lemma PositiveUse(s: State, t: nat)
    requires Inv(s) && Conserved(s) && (t in s.leases || t in Pending(s))
    ensures s.inUse > 0
  {
    if t in s.leases { assert |s.leases| > 0; } else { assert |Pending(s)| > 0; }
  }

  /** Conservation is lost by exactly the leaky steps. */
  lemma ConservedIffNotLeaky(s: State, step: Step)
    requires Inv(s) && Conserved(s) && Enabled(s, step)
    ensures Conserved(Apply(s, step)) <==> !Leaky(s, step)
  {
    match step
    case Acquire(p) => if s.inUse < s.capacity { AcquireFastKeeps(s, p); } else { AcquireSlowKeeps(s, p); }
    case Check(t) => CheckKeeps(s, t);
    case Cancel(t) =>
      CancelKeeps(s, t);
      if s.tickets[t].awarded { PositiveUse(s, t); }
    case CloseLoop(t) => CloseLoopKeeps(s, t);
    case Release(l) =>
      ReleaseKeeps(s, l);
      if l in s.leases { PositiveUse(s, l); }
      if s.inUse == 0 {
        assert Pending(Apply(s, step)) == Pending(s);
        assert s.leases - {l} == s.leases;
      }
    case SetCapacity(r) => SetCapacityKeeps(s, r);
    case Reclaim(dead) =>
      ReclaimKeeps(s, dead);
      assert |s.leases| == |s.leases - dead| + |dead| by { assert s.leases == (s.leases - dead) + dead; }
  }

  // ---- the clamps ----

  /** PassOn with `in_use - 1` in place of `max(0, in_use - 1)`. */
  ghost function BarePassOn(s: State): State {
    if s.queue != {} then Award(s) else s.(inUse := s.inUse - 1)
  }

  ghost function BarePassOnMany(s: State, n: nat): State
    decreases n
  {
    if n == 0 then s else BarePassOnMany(BarePassOn(s), n - 1)
  }

  /** The steps with every clamp taken out. */
  ghost function BareApply(s: State, step: Step): State
    requires Enabled(s, step)
  {
    match step
    case Cancel(t) => if s.tickets[t].awarded then BarePassOn(Leave(s, t)) else CancelStep(s, t)
    case Release(l) =>
      if s.inUse > s.capacity then Unlease(s, l).(inUse := s.inUse - 1) else BarePassOn(Unlease(s, l))
    case Reclaim(dead) => BarePassOnMany(Unlist(s, dead), |dead|)
    case _ => Apply(s, step)
  }

  lemma {:induction false} BarePassOnManySame(s: State, n: nat)
    requires Core(s) && NoIdle(s) && n <= s.inUse
    ensures BarePassOnMany(s, n) == PassOnMany(s, n)
    decreases n
  {
    if n > 0 {
      PassOnEffects(s);
      BarePassOnManySame(PassOn(s), n - 1);
    }
  }

  /** In a conserved state a clamp changes what a step does if and only if a stale lease is released
      while no slot is in use. */
  lemma ClampsNeverFire(s: State, step: Step)
    requires Inv(s) && Conserved(s) && Enabled(s, step)
    ensures BareApply(s, step) == Apply(s, step) <==> !(step.Release? && step.l !in s.leases && s.inUse == 0)
  {
    match step
    case Release(l) => if l in s.leases { PositiveUse(s, l); }
    case Cancel(t) => if s.tickets[t].awarded { PositiveUse(s, t); }
    case Reclaim(dead) =>
      assert |s.leases| == |s.leases - dead| + |dead| by { assert s.leases == (s.leases - dead) + dead; }
      UnlistKeeps(s, dead);
      BarePassOnManySame(Unlist(s, dead), |dead|);
    case _ =>
  }

  lemma CancelNeverRaises(s: State, t: nat)
    requires Inv(s) && t in s.tickets && s.tickets[t].waiting
    ensures CancelStep(s, t).inUse <= s.inUse && CancelStep(s, t).sequence == s.sequence
  {
    if s.tickets[t].awarded {
      WinnerLeaves(s, t);
      PassOnEffects(Leave(s, t));
    }
  }

  lemma ReleaseNeverRaises(s: State, l: nat)
    requires Inv(s) && l in s.held
    ensures ReleaseStep(s, l).inUse <= s.inUse && ReleaseStep(s, l).sequence == s.sequence
  {
    UnleaseKeeps(s, l);
    PassOnEffects(Unlease(s, l));
  }

  lemma ReclaimNeverRaises(s: State, dead: set<nat>)
    requires Inv(s) && dead <= s.leases
    ensures var s' := Apply(s, Reclaim(dead)); s'.inUse <= s.inUse && s'.sequence == s.sequence
  {
    var s' := ReclaimEffects(s, dead);
  }

  /** The count of used slots grows only while it is below the capacity, and never past it; a
      direct grant happens only when nobody is queued, so it overtakes nobody. */
  lemma RaisesOnlyBelowCapacity(s: State, step: Step)
    requires Inv(s) && Enabled(s, step) && Apply(s, step).inUse > s.inUse
    ensures s.inUse < Apply(s, step).inUse <= Apply(s, step).capacity
    ensures step.Acquire? ==> s.queue == {}
  {
    match step
    case SetCapacity(r) => GrantEffects(s.(capacity := NormalizeLimit(r)));
    case Cancel(t) => CancelNeverRaises(s, t);
    case Release(l) => ReleaseNeverRaises(s, l);
    case Reclaim(dead) => ReclaimNeverRaises(s, dead);
    case _ =>
  }

  /** Serving skips the cancelled tickets at the front: what is left starts with the least ticket that is not
      cancelled, or is empty if all are. */
  lemma {:induction false} SkipDropsCancelled(s: State)
    requires forall e :: e in s.queue ==> e.sequence in s.tickets
    ensures var q := Skip(s).queue;
            && q <= s.queue && Skip(s) == s.(queue := q)
            && (forall e :: e in s.queue && e !in q ==> s.tickets[e.sequence].cancelled)
            && (q != {} ==> !s.tickets[Least(q).sequence].cancelled)
            && (forall e :: e in s.queue && !s.tickets[e.sequence].cancelled ==> e in q && (e == Least(q) || Before(Least(q), e)))
    decreases |s.queue|
  {
    if s.queue != {} && s.tickets[Least(s.queue).sequence].cancelled {
      SkipDropsCancelled(s.(queue := s.queue - {Least(s.queue)}));
    }
  }

  // ---- every run ----

  lemma InitInv(c: int)
    ensures Inv(Init(c)) && Conserved(Init(c))
  {
    assert Pending(Init(c)) == {};
  }

  /** The invariant holds in every state of every run. */
  lemma {:induction false} RunInv(r: Run, i: nat)
    requires ValidRun(r) && i < |r.states|
    ensures Inv(r.states[i])
    decreases i
  {
    if i == 0 {
      var c :| r.states[0] == Init(c);
      InitInv(c);
    } else {
      RunInv(r, i - 1);
      StepKeepsInv(r.states[i - 1], r.steps[i - 1]);
    }
  }

  /** Slot conservation over whole runs: as long as no step is leaky, every state accounts for
      every used slot. */
  lemma {:induction false} RunConserved(r: Run, i: nat)
    requires ValidRun(r) && i < |r.states|
    requires forall k :: 0 <= k < i ==> !Leaky(r.states[k], r.steps[k])
    ensures Inv(r.states[i]) && Conserved(r.states[i])
    decreases i
  {
    RunInv(r, i);
    if i == 0 {
      var c :| r.states[0] == Init(c);
      InitInv(c);
    } else {
      RunConserved(r, i - 1);
      ConservedIffNotLeaky(r.states[i - 1], r.steps[i - 1]);
    }
  }

  /** No waiter is lost: in every state of every run a ticket whose owner still waits is queued,
      or has been awarded a slot and woken, unless its event loop was found closed. */
  lemma NoLostWaiter(r: Run, i: nat, t: nat)
    requires ValidRun(r) && i < |r.states|
    requires t in r.states[i].tickets && r.states[i].tickets[t].waiting
    ensures var k := r.states[i].tickets[t];
            && (Entry(k.priority, t) in r.states[i].queue <==> !k.awarded)
            && (k.awarded && !k.cancelled ==> k.woken)
            && (k.cancelled ==> k.awarded && !k.loopOpen)
  {
    RunInv(r, i);
  }

  /** No slot idles: in every state of every run somebody queues only while every slot is used. */
  lemma NoIdleSlot(r: Run, i: nat)
    requires ValidRun(r) && i < |r.states| && r.states[i].queue != {}
    ensures r.states[i].inUse >= r.states[i].capacity >= 1
  {
    RunInv(r, i);
  }

  /** The states some run reaches. */
  ghost predicate Reachable(s: State) {
    exists r :: ValidRun(r) && r.states[|r.steps|] == s
  }

  lemma ReachableInit(c: int)
    ensures Reachable(Init(c))
  {
    assert ValidRun(Run([Init(c)], []));
    assert Run([Init(c)], []).states[0] == Init(c);
  }

  lemma ReachableStep(s: State, step: Step)
    requires Reachable(s) && Enabled(s, step)
    ensures Reachable(Apply(s, step))
  {
    var r :| ValidRun(r) && r.states[|r.steps|] == s;
    var next := Run(r.states + [Apply(s, step)], r.steps + [step]);
    assert next.states[0] == r.states[0];
    forall i | 0 <= i < |next.steps|
      ensures Enabled(next.states[i], next.steps[i]) && next.states[i + 1] == Apply(next.states[i], next.steps[i])
    {
      if i < |r.steps| { assert Enabled(r.states[i], r.steps[i]) && r.states[i + 1] == Apply(r.states[i], r.steps[i]); }
    }
    assert ValidRun(next) && next.states[|next.steps|] == Apply(s, step);
  }

  lemma ReachableAcquire(s: State, priority: real)
    requires Reachable(s)
    ensures Reachable(AcquireStep(s, priority))
  {
    ReachableStep(s, Acquire(priority));
  }

  lemma ReachableCheck(s: State, t: nat)
    requires Reachable(s) && Enabled(s, Check(t))
    ensures Reachable(CheckStep(s, t))
  {
    ReachableStep(s, Check(t));
  }

  lemma ReachableCancel(s: State, t: nat)
    requires Reachable(s) && t in s.tickets && s.tickets[t].waiting
    ensures Reachable(CancelStep(s, t))
  {
    ReachableStep(s, Cancel(t));
  }

  lemma ReachableRelease(s: State, l: nat)
    requires Reachable(s) && l in s.held
    ensures Reachable(ReleaseStep(s, l))
  {
    ReachableStep(s, Release(l));
  }

  lemma ReachableSetCapacity(s: State, r: CapacityRequest)
    requires Reachable(s)
    ensures Reachable(SetCapacityStep(s, r))
  {
    ReachableStep(s, SetCapacity(r));
  }

  lemma ReachableReclaim(s: State, dead: set<nat>)
    requires Reachable(s) && dead <= s.leases
    ensures Reachable(ReclaimStep(s, dead))
  {
    ReachableStep(s, Reclaim(dead));
  }

  lemma ReachableInv(s: State)
    requires Reachable(s)
    ensures Inv(s)
  {
    var r :| ValidRun(r) && r.states[|r.steps|] == s;
    RunInv(r, |r.steps|);
  }

  /** The largest capacity up to state `i`. */
  function Peak(r: Run, i: nat): int
    requires i < |r.states|
  {
    if i == 0 then r.states[0].capacity else Max(Peak(r, i - 1), r.states[i].capacity)
  }

  lemma {:induction false} UseWithinPeak(r: Run, i: nat)
    requires ValidRun(r) && i < |r.states|
    ensures r.states[i].inUse <= Peak(r, i) && r.states[i].capacity <= Peak(r, i)
    decreases i
  {
    RunInv(r, i);
    if i > 0 {
      RunInv(r, i - 1);
      UseWithinPeak(r, i - 1);
      if r.states[i].inUse > r.states[i - 1].inUse { RaisesOnlyBelowCapacity(r.states[i - 1], r.steps[i - 1]); }
    }
  }

  /** Mutual exclusion: in a run without leaks, never more processes hold or are owed a slot than the
      largest capacity that the manager has had. */
  lemma HoldersWithinPeak(r: Run, i: nat)
    requires ValidRun(r) && i < |r.states|
    requires forall k :: 0 <= k < i ==> !Leaky(r.states[k], r.steps[k])
    ensures |r.states[i].leases| + |Pending(r.states[i])| <= Peak(r, i)
  {
    RunConserved(r, i);
    UseWithinPeak(r, i);
  }

  /** A waiter is never stranded by an idle manager: while anybody queues in a run without leaks, at
      least `capacity` leases or awards are outstanding, each of which will hand its slot on. */
  lemma WaitersHaveServers(r: Run, i: nat)
    requires ValidRun(r) && i < |r.states| && r.states[i].queue != {}
    requires forall k :: 0 <= k < i ==> !Leaky(r.states[k], r.steps[k])
    ensures |r.states[i].leases| + |Pending(r.states[i])| >= r.states[i].capacity >= 1
  {
    RunConserved(r, i);
  }

  // ---- order of service ----

  /** What one step may do to the queue. */
  ghost predicate QueueEvolves(s: State, step: Step, s': State) {
    && (forall e :: e in s'.queue && e !in s.queue ==> step.Acquire? && e == Entry(step.priority, s.sequence + 1))
    && (forall e :: e in s.queue && e !in s'.queue ==>
          || (e.sequence in s'.tickets && s'.tickets[e.sequence].awarded)
          || (step == Cancel(e.sequence) && e.sequence in s'.tickets && !s'.tickets[e.sequence].awarded
              && !s'.tickets[e.sequence].waiting))
    && (forall e, f | e in s.queue && e !in s'.queue && f in s'.queue && f in s.queue ::
          e.sequence in s'.tickets && s'.tickets[e.sequence].awarded ==> Before(e, f))
    && (forall t :: t in s.tickets && !s.tickets[t].waiting && !s.tickets[t].awarded ==>
          t in s'.tickets && !s'.tickets[t].waiting && !s'.tickets[t].awarded)
    && (forall t :: t in s.tickets && s.tickets[t].awarded ==> t in s'.tickets && s'.tickets[t].awarded)
  }

  lemma ServedEvolves(s: State, step: Step, m: State, s': State)
    requires Inv(s) && Core(m) && m.queue == s.queue && ServedInOrder(m, s')
    requires m.tickets.Keys == s.tickets.Keys
    requires forall t :: t in s.tickets && !s.tickets[t].waiting ==> m.tickets[t] == s.tickets[t]
    requires forall t :: t in s.tickets && s.tickets[t].awarded ==> m.tickets[t].awarded
    ensures QueueEvolves(s, step, s')
  {
    forall t | t in s.tickets && s.tickets[t].awarded ensures s'.tickets[t].awarded {
      assert forall e :: e in m.queue ==> e.sequence != t;
    }
    forall t | t in s.tickets && !s.tickets[t].waiting && !s.tickets[t].awarded
      ensures !s'.tickets[t].waiting && !s'.tickets[t].awarded
    {
      assert forall e :: e in m.queue ==> e.sequence != t;
    }
  }

  lemma SetCapacityOrder(s: State, r: CapacityRequest)
    requires Inv(s)
    ensures QueueEvolves(s, SetCapacity(r), Apply(s, SetCapacity(r)))
  {
    var m := s.(capacity := NormalizeLimit(r));
    GrantEffects(m);
    ServedEvolves(s, SetCapacity(r), m, Grant(m));
  }

  lemma ReleaseOrder(s: State, l: nat)
    requires Inv(s) && l in s.held
    ensures QueueEvolves(s, Release(l), ReleaseStep(s, l))
  {
    var m := Unlease(s, l);
    UnleaseKeeps(s, l);
    if s.inUse <= s.capacity {
      PassOnEffects(m);
      ServedEvolves(s, Release(l), m, PassOn(m));
    }
  }

  lemma ReclaimOrder(s: State, dead: set<nat>)
    requires Inv(s) && dead <= s.leases
    ensures QueueEvolves(s, Reclaim(dead), Apply(s, Reclaim(dead)))
  {
    var s' := ReclaimEffects(s, dead);
    UnlistKeeps(s, dead);
    ServedEvolves(s, Reclaim(dead), Unlist(s, dead), s');
  }

  lemma CancelOrder(s: State, t: nat)
    requires Inv(s) && t in s.tickets && s.tickets[t].waiting
    ensures QueueEvolves(s, Cancel(t), CancelStep(s, t))
  {
    if s.tickets[t].awarded {
      var m := Leave(s, t);
      WinnerLeaves(s, t);
      PassOnEffects(m);
      ServedEvolves(s, Cancel(t), m, PassOn(m));
    }
  }

  lemma AcquireOrder(s: State, p: real)
    requires Inv(s)
    ensures QueueEvolves(s, Acquire(p), AcquireStep(s, p))
  {
    FreshTicket(s, s.sequence + 1, p);
  }

  /** Every award of every step goes to the least (priority, sequence): whoever is left behind
      comes after everybody served. */
  lemma AwardOrder(s: State, step: Step)
    requires Inv(s) && Enabled(s, step)
    ensures QueueEvolves(s, step, Apply(s, step))
  {
    match step
    case Acquire(p) => AcquireOrder(s, p);
    case Check(t) =>
    case Cancel(t) => CancelOrder(s, t);
    case CloseLoop(t) =>
    case Release(l) => ReleaseOrder(s, l);
    case SetCapacity(r) => SetCapacityOrder(s, r);
    case Reclaim(dead) => ReclaimOrder(s, dead);
  }

  /** Once `f` has left the queue, it either was served or gave up. */
  predicate GaveUp(s: State, t: nat) {
    t in s.tickets && !s.tickets[t].awarded && !s.tickets[t].waiting
  }

  ghost predicate NotPassed(s: State, e: Entry, f: Entry) {
    && e.sequence <= s.sequence && f.sequence <= s.sequence
    && (e in s.queue ==> f in s.queue || GaveUp(s, f.sequence))
  }

  lemma NotPassedStep(s: State, step: Step, e: Entry, f: Entry)
    requires Inv(s) && Enabled(s, step) && NotPassed(s, e, f) && Before(e, f)
    ensures NotPassed(Apply(s, step), e, f)
  {
    AwardOrder(s, step);
    SequenceGrows(s, step);
  }

  /** Nobody is overtaken: if two tickets wait together and the later one in (priority, sequence)
      order has been awarded at some later point of the run, the earlier one no longer waits. */
  lemma {:induction false} NoOvertaking(r: Run, i: nat, j: nat, e: Entry, f: Entry)
    requires ValidRun(r) && i <= j < |r.states|
    requires e in r.states[i].queue && f in r.states[i].queue
    requires e.priority < f.priority || (e.priority == f.priority && e.sequence < f.sequence)
    ensures NotPassed(r.states[j], e, f)
    ensures f.sequence in r.states[j].tickets && r.states[j].tickets[f.sequence].awarded ==> e !in r.states[j].queue
    decreases j
  {
    RunInv(r, j);
    if i < j {
      RunInv(r, j - 1);
      NoOvertaking(r, i, j - 1, e, f);
      NotPassedStep(r.states[j - 1], r.steps[j - 1], e, f);
    }
  }

  lemma SequenceGrows(s: State, step: Step)
    requires Inv(s) && Enabled(s, step)
    ensures s.sequence <= Apply(s, step).sequence
  {
    match step
    case SetCapacity(r) => GrantEffects(s.(capacity := NormalizeLimit(r)));
    case Release(l) => ReleaseNeverRaises(s, l);
    case Reclaim(dead) => ReclaimNeverRaises(s, dead);
    case Cancel(t) => CancelNeverRaises(s, t);
    case _ =>
  }

  /** The number of waiters ahead of `e`. */
  ghost function Ahead(s: State, e: Entry): set<Entry> {
    set f | f in s.queue && Before(f, e)
  }

  /** Bounded waiting: each release outside a shrink serves the waiter with nobody ahead of it and
      moves every other waiter up by exactly one place. */
  lemma ReleaseAdvances(s: State, l: nat, e: Entry)
    requires Inv(s) && l in s.held && s.inUse <= s.capacity && e in s.queue
    ensures var s' := Apply(s, Release(l));
            if |Ahead(s, e)| == 0
            then e !in s'.queue && s'.tickets[e.sequence].awarded
            else e in s'.queue && |Ahead(s', e)| == |Ahead(s, e)| - 1
  {
    var s' := Apply(s, Release(l));
    UnleaseKeeps(s, l);
    AwardEffects(Unlease(s, l));
    var first := Least(s.queue);
    if first == e {
      assert Ahead(s, e) == {};
    } else {
      QueueIdsDiffer(s, first, e);
      assert first in Ahead(s, e);
      assert Ahead(s', e) == Ahead(s, e) - {first};
    }
  }

  /** The releases of steps `i` to `j` that happen outside a shrink. */
  ghost function Releases(r: Run, i: nat, j: nat): nat
    requires i <= j <= |r.steps| < |r.states|
  {
    if i == j then 0
    else Releases(r, i, j - 1) +
         (if r.steps[j - 1].Release? && r.states[j - 1].inUse <= r.states[j - 1].capacity then 1 else 0)
  }

  /** The step brings no waiter that would be served before one of this priority. */
  predicate LessUrgent(step: Step, priority: real) {
    step.Acquire? ==> step.priority >= priority
  }

  lemma AheadShrinks(s: State, step: Step, e: Entry)
    requires Inv(s) && Enabled(s, step) && e in s.queue && e in Apply(s, step).queue && LessUrgent(step, e.priority)
    ensures Ahead(Apply(s, step), e) <= Ahead(s, e)
    ensures step.Release? && s.inUse <= s.capacity ==> |Ahead(Apply(s, step), e)| + 1 <= |Ahead(s, e)|
  {
    AwardOrder(s, step);
    if step.Release? && s.inUse <= s.capacity { ReleaseAdvances(s, step.l, e); }
  }

  /** While a waiter queues, every release outside a shrink has taken somebody ahead of it away. */
  lemma {:induction false} RunAdvances(r: Run, i: nat, j: nat, e: Entry)
    requires ValidRun(r) && i <= j < |r.states| && e in r.states[i].queue
    requires forall k :: i <= k < j ==> LessUrgent(r.steps[k], e.priority)
    ensures e in r.states[j].queue ==> |Ahead(r.states[j], e)| + Releases(r, i, j) <= |Ahead(r.states[i], e)|
    ensures e in r.states[j].queue || ServedOrGone(r.states[j], e.sequence)
    decreases j
  {
    if i < j {
      RunAdvances(r, i, j - 1, e);
      RunStepAdvances(r, j - 1, e);
    }
  }

  /** `e` has stayed in the queue and moved up if the step was a release outside a shrink, or it is
      served or gone. */
  ghost predicate Advances(s: State, step: Step, s': State, e: Entry) {
    if e in s'.queue
    then e in s.queue && |Ahead(s', e)| + (if step.Release? && s.inUse <= s.capacity then 1 else 0) <= |Ahead(s, e)|
    else ServedOrGone(s', e.sequence)
  }

  lemma RunStepAdvances(r: Run, k: nat, e: Entry)
    requires ValidRun(r) && k < |r.steps| && LessUrgent(r.steps[k], e.priority)
    requires e in r.states[k].queue || ServedOrGone(r.states[k], e.sequence)
    ensures Advances(r.states[k], r.steps[k], r.states[k + 1], e)
  {
    RunInv(r, k);
    StepAdvances(r.states[k], r.steps[k], e);
  }

  lemma StepAdvances(s: State, step: Step, e: Entry)
    requires Inv(s) && Enabled(s, step) && LessUrgent(step, e.priority)
    requires e in s.queue || ServedOrGone(s, e.sequence)
    ensures Advances(s, step, Apply(s, step), e)
  {
    StaysSettled(s, step, e);
    if e in s.queue && e in Apply(s, step).queue {
      AheadShrinks(s, step, e);
      SubsetSize(Ahead(Apply(s, step), e), Ahead(s, e));
    }
  }

  lemma StaysSettled(s: State, step: Step, e: Entry)
    requires Inv(s) && Enabled(s, step) && (e in s.queue || ServedOrGone(s, e.sequence))
    ensures e in Apply(s, step).queue ==> e in s.queue
    ensures e in Apply(s, step).queue || ServedOrGone(Apply(s, step), e.sequence)
  {
    AwardOrder(s, step);
    StepKeepsInv(s, step);
  }

  /** The ticket was served or gave up. */
  predicate ServedOrGone(s: State, t: nat) {
    t in s.tickets && (s.tickets[t].awarded || !s.tickets[t].waiting)
  }

  lemma SubsetSize<T>(a: set<T>, b: set<T>)
    requires a <= b
    ensures |a| <= |b|
  {
    assert b == a + (b - a);
    assert |b| == |a| + |b - a|;
  }

  /** Bounded waiting over a run: with `k` ahead, the (k+1)-th release outside a shrink finds the
      waiter served, or gone of its own accord, unless somebody more urgent arrived. */
  lemma ServedWithin(r: Run, i: nat, j: nat, e: Entry)
    requires ValidRun(r) && i <= j < |r.states| && e in r.states[i].queue
    requires forall k :: i <= k < j ==> LessUrgent(r.steps[k], e.priority)
    requires Releases(r, i, j) > |Ahead(r.states[i], e)|
    ensures e !in r.states[j].queue && ServedOrGone(r.states[j], e.sequence)
  {
    RunAdvances(r, i, j, e);
  }

  lemma QueueIdsDiffer(s: State, e: Entry, f: Entry)
    requires Inv(s) && e in s.queue && f in s.queue && e != f && !Before(f, e)
    ensures Before(e, f)
  {
    if e.sequence == f.sequence { QueueIds(s, e, f); }
  }

  // ---- shrinking ----

  ghost function ReleaseAll(s: State, ls: seq<nat>): State
    decreases |ls|
  {
    if ls == [] then s else ReleaseAll(ReleaseStep(s, ls[0]), ls[1..])
  }

  /** After a shrink every release retires one slot and serves nobody, until the number of used
      slots is back at the capacity. */
  lemma {:induction false} ShrinkDrains(s: State, ls: seq<nat>)
    requires Inv(s) && |ls| <= s.inUse - s.capacity
    ensures var s' := ReleaseAll(s, ls);
            s'.inUse == s.inUse - |ls| && s'.queue == s.queue && s'.tickets == s.tickets && s'.capacity == s.capacity
    decreases |ls|
  {
    if ls != [] {
      var s1 := ReleaseStep(s, ls[0]);
      assert Core(s1) && NoIdle(s1);
      ShrinkDrains(s1, ls[1..]);
    }
  }

  // ---- how the count goes wrong, and how a slot is stranded ----

  ghost function OneLease(p: real): State {
    State(1, 1, 1, {}, map[1 := Ticket(p, true, false, false, false, false)], {1}, {1}, 1)
  }

  /** The manager with one slot after its only lease was reclaimed and the slot leased again. */
  ghost function ReleasedAgain(p: real): State {
    var k := Ticket(p, true, false, false, false, false);
    State(1, 1, 2, {}, map[1 := k, 2 := k], {2}, {1, 2}, 2)
  }

  lemma FirstLease(p: real)
    ensures AcquireStep(Init(1), p) == OneLease(p)
  {
    var s := AcquireStep(Init(1), p);
    assert s.tickets == OneLease(p).tickets && s.leases == {1} && s.held == {1};
  }

  lemma Reclaimed(p: real)
    ensures ReclaimStep(OneLease(p), {1}) == OneLease(p).(leases := {}, inUse := 0)
  {
    var s := OneLease(p).(leases := OneLease(p).leases - {1});
    assert s.leases == {};
    assert PassOnMany(s, 1) == PassOnMany(PassOn(s), 0);
  }

  lemma LeasedAgain(p: real)
    ensures AcquireStep(OneLease(p).(leases := {}, inUse := 0), p) == ReleasedAgain(p)
  {
    var s := AcquireStep(OneLease(p).(leases := {}, inUse := 0), p);
    assert s.tickets == ReleasedAgain(p).tickets && s.leases == {2} && s.held == {1, 2};
  }

  lemma ReleasedAgainReachable(p: real)
    ensures Reachable(ReleasedAgain(p))
  {
    ReachableInit(1);
    ReachableAcquire(Init(1), p);
    FirstLease(p);
    ReachableReclaim(OneLease(p), {1});
    Reclaimed(p);
    ReachableAcquire(ReclaimStep(OneLease(p), {1}), p);
    LeasedAgain(p);
  }

  /** A lease reclaimed as orphaned and released by its owner afterwards is returned twice: with
      one slot, the manager ends up with a registered lease and no slot in use, ready to hand out
      a second one. */
  lemma StaleReleaseExample(p: real)
    ensures var s := ReleasedAgain(p); Reachable(s) && Enabled(s, Release(1)) && Leaky(s, Release(1))
    ensures var s := ReleaseStep(ReleasedAgain(p), 1);
            s.inUse == 0 && s.capacity == 1 && s.leases == {2} && !Conserved(s)
  {
    ReleasedAgainReachable(p);
    var s := ReleaseStep(ReleasedAgain(p), 1);
    assert s.leases == {2} && |s.leases| == 1;
  }

  /** Some step other than its own cancellation ends the ticket's hold on its slot. */
  ghost predicate CanProceed(s: State, t: nat) {
    exists step :: Enabled(s, step) && step != Cancel(t) && t !in Pending(Apply(s, step))
  }

  /** A winner can claim its slot exactly while its event loop is open. */
  lemma ProceedsIffLoopOpen(s: State, t: nat)
    requires Inv(s) && t in Pending(s)
    ensures CanProceed(s, t) <==> s.tickets[t].loopOpen
  {
    if s.tickets[t].loopOpen {
      assert Enabled(s, Check(t)) && t !in Pending(Apply(s, Check(t)));
    } else if step :| Enabled(s, step) && step != Cancel(t) && t !in Pending(Apply(s, step)) {
      ClosedLoopStep(s, step, t);
    }
  }

  /** A winner on a closed event loop holds its slot: in every continuation without its own
      cancellation it neither claims the slot nor passes it on. */
  lemma {:induction false} ClosedLoopHoldsSlot(r: Run, i: nat, j: nat, t: nat)
    requires ValidRun(r) && i <= j < |r.states|
    requires t in Pending(r.states[i]) && !r.states[i].tickets[t].loopOpen
    requires forall k :: i <= k < j ==> r.steps[k] != Cancel(t)
    ensures t in Pending(r.states[j]) && !r.states[j].tickets[t].loopOpen
    decreases j
  {
    if i < j {
      RunInv(r, j - 1);
      ClosedLoopHoldsSlot(r, i, j - 1, t);
      ClosedLoopStep(r.states[j - 1], r.steps[j - 1], t);
    }
  }

  /** Serving others does not touch a winner on a closed loop. */
  lemma ClosedLoopServed(m: State, s': State, t: nat)
    requires Core(m) && ServedInOrder(m, s') && t in Pending(m) && !m.tickets[t].loopOpen
    ensures t in Pending(s') && !s'.tickets[t].loopOpen
  {
    assert forall e :: e in m.queue ==> e.sequence != t;
  }

  lemma ClosedLoopCancel(s: State, u: nat, t: nat)
    requires Inv(s) && Enabled(s, Cancel(u)) && u != t && t in Pending(s) && !s.tickets[t].loopOpen
    ensures t in Pending(CancelStep(s, u)) && !CancelStep(s, u).tickets[t].loopOpen
  {
    if s.tickets[u].awarded {
      WinnerLeaves(s, u);
      PassOnEffects(Leave(s, u));
      ClosedLoopServed(Leave(s, u), PassOn(Leave(s, u)), t);
    }
  }

  lemma ClosedLoopRelease(s: State, l: nat, t: nat)
    requires Inv(s) && l in s.held && t in Pending(s) && !s.tickets[t].loopOpen
    ensures t in Pending(ReleaseStep(s, l)) && !ReleaseStep(s, l).tickets[t].loopOpen
  {
    UnleaseKeeps(s, l);
    PassOnEffects(Unlease(s, l));
    ClosedLoopServed(Unlease(s, l), PassOn(Unlease(s, l)), t);
  }

  lemma ClosedLoopStep(s: State, step: Step, t: nat)
    requires Inv(s) && Enabled(s, step) && step != Cancel(t)
    requires t in Pending(s) && !s.tickets[t].loopOpen
    ensures t in Pending(Apply(s, step)) && !Apply(s, step).tickets[t].loopOpen
  {
    match step
    case SetCapacity(r) =>
      var m := s.(capacity := NormalizeLimit(r));
      GrantEffects(m);
      ClosedLoopServed(m, Grant(m), t);
    case Release(l) => ClosedLoopRelease(s, l, t);
    case Reclaim(dead) =>
      var s' := ReclaimEffects(s, dead);
      UnlistKeeps(s, dead);
      ClosedLoopServed(Unlist(s, dead), s', t);
    case Cancel(u) => ClosedLoopCancel(s, u, t);
    case _ =>
  }

  /** One slot, given to a waiter whose loop had closed: no lease is left, and the slot is in use. */
  ghost function Stranded(p: real): State {
    State(1, 1, 2, {}, map[1 := Ticket(p, true, false, false, false, false), 2 := Ticket(p, false, false, true, true, true)], {}, {}, 1)
  }

  lemma OneWaits(p: real)
    ensures var s := AcquireStep(OneLease(p), p);
            s == State(1, 1, 2, {Entry(p, 2)}, map[1 := Ticket(p, true, false, false, false, false), 2 := Ticket(p, true, false, false, false, true)], {1}, {1}, 1)
  {
    var s := AcquireStep(OneLease(p), p);
    assert s.queue == {Entry(p, 2)};
  }

  lemma LoopCloses(p: real)
    ensures var s := AcquireStep(OneLease(p), p);
            Enabled(s, CloseLoop(2)) && ReleaseStep(Apply(s, CloseLoop(2)), 1) == Stranded(p)
  {
    OneWaits(p);
    var s := Apply(AcquireStep(OneLease(p), p), CloseLoop(2));
    var u := Unlease(s, 1);
    assert s.queue == {Entry(p, 2)} && IsLeast(s.queue, Least(s.queue)) && Least(u.queue) == Entry(p, 2);
    var a := Award(u);
    assert a.queue == {} && a.leases == {} && a.held == {};
    assert a.tickets == Stranded(p).tickets;
  }

  /** That state is reachable: acquire, acquire, close the second loop, release. */
  lemma StrandedReachable(p: real)
    ensures Reachable(Stranded(p)) && 2 in Pending(Stranded(p)) && Conserved(Stranded(p))
  {
    ReachableInit(1);
    ReachableAcquire(Init(1), p);
    FirstLease(p);
    ReachableAcquire(OneLease(p), p);
    LoopCloses(p);
    var s := AcquireStep(OneLease(p), p);
    ReachableStep(s, CloseLoop(2));
    OneWaits(p);
    ReachableRelease(Apply(s, CloseLoop(2)), 1);
    assert Pending(Stranded(p)) == {2};
  }
}
