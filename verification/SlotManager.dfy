/** AgentProcessSlotManager of `app/agent_slots.py`, method by method, against the protocol. */
module SlotManager {
  import opened HeapQ
  import opened SlotProtocol
  import opened SlotInvariants
  import WaitHistogram

  /** What orphan detection reads of an AgentSlotLease, and its released flag. */
  datatype Process = Unbound | Pid(id: int)

  datatype LeaseInfo = LeaseInfo(process: Process, acquiredAt: real, released: bool)

  /** The waiting list as a set; sequence numbers make the entries distinct. */
  function Elements(q: seq<Entry>): set<Entry> {
    set e | e in q
  }

  ghost predicate Distinct(q: seq<Entry>) {
    forall e :: e in q ==> multiset(q)[e] == 1
  }

  lemma PoppedElements(q: seq<Entry>, least: Entry, rest: seq<Entry>)
    requires Distinct(q) && multiset(q) == multiset(rest) + multiset{least}
    requires forall e :: e in rest ==> !Before(e, least)
    ensures Distinct(rest) && least in q
    ensures Elements(rest) == Elements(q) - {least} && IsLeast(Elements(q), least)
  {
    assert least in multiset(q);
    forall e ensures e in rest <==> e in q && e != least {
      assert multiset(q)[e] == multiset(rest)[e] + multiset{least}[e];
      assert e in multiset(rest) <==> e in rest;
      assert e in multiset(q) <==> e in q;
    }
    forall e | e in rest ensures multiset(rest)[e] == 1 {
      assert multiset(q)[e] == multiset(rest)[e] + multiset{least}[e];
    }
  }

  lemma PushedElements(q: seq<Entry>, x: Entry, r: seq<Entry>)
    requires Distinct(q) && x !in q && multiset(r) == multiset(q) + multiset{x}
    ensures Distinct(r) && Elements(r) == Elements(q) + {x}
  {
    forall e ensures e in r <==> e in q || e == x {
      assert e in multiset(r) <==> e in r;
      assert e in multiset(q) <==> e in q;
    }
    forall e | e in r ensures multiset(r)[e] == 1 {
      assert e in multiset(q) <==> e in q;
    }
  }

  lemma SameElements(q: seq<Entry>, r: seq<Entry>)
    requires Distinct(q) && multiset(q) == multiset(r)
    ensures Distinct(r) && Elements(r) == Elements(q)
  {
    forall e ensures e in r <==> e in q {
      assert e in multiset(r) <==> e in r;
      assert e in multiset(q) <==> e in q;
    }
  }

  lemma LeastUnique(q: set<Entry>, e: Entry, f: Entry)
    requires IsLeast(q, e) && IsLeast(q, f)
    ensures e == f
  {
  }

  class AgentProcessSlotManager {
    var capacity: int
    var inUse: int
    var waiters: seq<Entry>
    var tickets: map<nat, Ticket>
    var leases: set<nat>
    var granted: map<nat, LeaseInfo>
    var sequence: nat
    var totalAcquires: nat
    var stats: WaitHistogram.WaitStats
    ghost var waits: seq<real>
    ghost var state: State

    /** The fields represent the protocol state: the waiting list is a heap of the queued entries,
        and a lease is held while its released flag is down. */
    ghost predicate Represents() reads this {
      && state.capacity == capacity && state.inUse == inUse && state.sequence == sequence
      && state.tickets == tickets && state.leases == leases && state.acquires == totalAcquires
      && IsHeap(waiters) && Distinct(waiters) && state.queue == Elements(waiters)
      && state.held <= granted.Keys
      && (forall l :: l in granted ==> (l in state.held <==> !granted[l].released))
    }

    /** The manager is in a state some run of the protocol reaches. */
    ghost predicate Valid() reads this {
      Represents() && Reachable(state) && WaitHistogram.Describes(stats, waits) && totalAcquires == |waits|
    }

    constructor (limit: int)
      ensures Valid() && state == Init(limit) && waits == []
      ensures capacity == (if limit < 1 then 1 else limit) && inUse == 0 && waiters == [] && leases == {}
    {
      capacity := Max(1, limit);
      inUse, waiters, tickets, leases, granted, sequence := 0, [], map[], {}, map[], 0;
      totalAcquires, stats := 0, WaitHistogram.NoStats();
      waits := [];
      state := Init(limit);
      new;
      ReachableInit(limit);
    }

    /** _award_next_waiter, for any queue; where no cancelled ticket is queued nothing is skipped. */
    method AwardNextWaiter() returns (served: bool)
      requires Represents() && forall e :: e in state.queue ==> e.sequence in state.tickets
      modifies this`waiters, this`tickets, this`state
      ensures Represents()
      ensures served <==> Skip(old(state)).queue != {}
      ensures state == if served then Award(Skip(old(state))) else Skip(old(state))
      ensures QueueLive(old(state)) ==> QueueLive(state) && Skip(old(state)) == old(state)
    {
      while |waiters| > 0
        invariant Represents() && Skip(state) == Skip(old(state))
        invariant state.queue <= old(state).queue && state == old(state).(queue := state.queue)
        invariant QueueLive(old(state)) ==> state == old(state)
        decreases |waiters|
      {
        assert waiters[0] in Elements(waiters);
        ghost var q := waiters;
        var best, rest := HeapPop(waiters);
        PoppedElements(q, best, rest);
        assert best in state.queue && |q| == |multiset(q)|;
        assert |rest| == |multiset(rest)|;
        LeastUnique(state.queue, best, Least(state.queue));
        waiters := rest;
        if tickets[best.sequence].cancelled {
          state := state.(queue := state.queue - {best});
          continue;
        }
        tickets := tickets[best.sequence := Woken(tickets[best.sequence])];
        state := Award(state);
        return true;
      }
      assert Elements(waiters) == {};
      return false;
    }

    /** Hand the slot on or take it out of use: the tail of release, cancel and reclaim. */
    method PassOnOrReturn()
      requires Represents() && QueueLive(state)
      modifies this`waiters, this`tickets, this`state, this`inUse
      ensures Represents() && QueueLive(state) && state == PassOn(old(state))
    {
      var served := AwardNextWaiter();
      if !served {
        inUse := Max(0, inUse - 1);
        state := state.(inUse := inUse);
      }
    }

    method SetCapacity(request: CapacityRequest) returns (effective: int)
      requires Valid()
      modifies this`capacity, this`inUse, this`waiters, this`tickets, this`state
      ensures Valid() && state == SetCapacityStep(old(state), request) && effective == capacity
      ensures request.Requested? && 1 <= request.n <= 128 ==> capacity == request.n
      ensures request.Requested? && request.n < 1 ==> capacity == 1
      ensures request.Requested? && request.n > 128 ==> capacity == 128
      ensures request.Unparsable? ==> capacity == 8
    {
      assert QueueLive(state) by { ReachableInv(state); }
      ReachableSetCapacity(state, request);
      effective := NormalizeLimit(request);
      capacity := effective;
      state := state.(capacity := effective);
      GrantAll();
    }

    /** The loop of set_capacity: each new slot goes to the best waiter and counts as used. */
    method GrantAll()
      requires Represents() && QueueLive(state)
      modifies this`inUse, this`waiters, this`tickets, this`state
      ensures Represents() && state == Grant(old(state)) && capacity == old(capacity)
    {
      while inUse < capacity
        invariant Represents() && QueueLive(state) && Grant(state) == Grant(old(state))
        decreases |state.queue|
      {
        ghost var before := state;
        var served := AwardNextWaiter();
        if !served {
          return;
        }
        inUse := inUse + 1;
        state := state.(inUse := inUse);
        assert state == GrantOne(before);
      }
    }

    /** The lease a ticket turns into, on either path of acquire. */
    method Register(ticket: nat, now: real, waitSeconds: real)
      requires Represents() && WaitHistogram.Describes(stats, waits)
      modifies this`totalAcquires, this`stats, this`waits, this`leases, this`granted, this`state
      ensures Represents() && state == Lease(old(state), ticket)
      ensures WaitHistogram.Describes(stats, waits) && waits == old(waits) + [waitSeconds]
      ensures granted == old(granted)[ticket := LeaseInfo(Unbound, now, false)]
    {
      totalAcquires := totalAcquires + 1;
      stats := WaitHistogram.RecordWait(stats, waitSeconds, waits);
      waits := waits + [waitSeconds];
      leases := leases + {ticket};
      granted := granted[ticket := LeaseInfo(Unbound, now, false)];
      state := Lease(state, ticket);
    }

    method Enqueue(entry: Entry)
      requires Represents() && entry !in state.queue
      modifies this`waiters, this`state
      ensures Represents() && state == old(state).(queue := old(state).queue + {entry})
    {
      ghost var q := waiters;
      waiters := HeapPush(waiters, entry);
      PushedElements(q, entry, waiters);
      state := state.(queue := state.queue + {entry});
    }

    /** acquire up to its first lock block: a lease at once, or a ticket in the queue. */
    method Acquire(priority: real, now: real, waitSeconds: real) returns (ticket: nat, direct: bool)
      requires Valid() && 0.0 <= waitSeconds
      modifies this
      ensures Valid() && state == AcquireStep(old(state), priority)
      ensures ticket == sequence && direct == (old(inUse) < old(capacity))
      ensures waits == if direct then old(waits) + [waitSeconds] else old(waits)
      ensures granted == if direct then old(granted)[ticket := LeaseInfo(Unbound, now, false)] else old(granted)
      ensures direct ==> ticket in leases
      ensures tickets == old(tickets)[ticket := Ticket(priority, true, false, false, false, !direct)]
      ensures Elements(waiters) == Elements(old(waiters)) + if direct then {} else {Entry(priority, ticket)}
    {
      assert Entry(priority, state.sequence + 1) !in state.queue by {
        ReachableInv(state);
        FreshTicket(state, state.sequence + 1, priority);
      }
      ReachableAcquire(state, priority);
      direct := inUse < capacity;
      sequence := sequence + 1;
      ticket := sequence;
      tickets := tickets[ticket := Ticket(priority, true, false, false, false, !direct)];
      state := state.(sequence := sequence, tickets := tickets);
      if direct {
        inUse := inUse + 1;
        state := state.(inUse := inUse);
        Register(ticket, now, waitSeconds);
      } else {
        Enqueue(Entry(priority, ticket));
      }
    }

    /** The check under the lock after the wait returned. It never finds the ticket cancelled: that
        takes a closed event loop, on which it cannot run. */
    method Check(ticket: nat, now: real, waitSeconds: real) returns (outcome: WaitOutcome)
      requires Valid() && ticket in tickets && tickets[ticket].waiting && tickets[ticket].loopOpen && 0.0 <= waitSeconds
      modifies this
      ensures Valid() && state == CheckStep(old(state), ticket)
      ensures outcome == if old(tickets)[ticket].awarded then Leased else StillWaiting
      ensures waits == if outcome.Leased? then old(waits) + [waitSeconds] else old(waits)
      ensures granted == if outcome.Leased? then old(granted)[ticket := LeaseInfo(Unbound, now, false)] else old(granted)
      ensures outcome.Leased? ==> ticket in leases
      ensures tickets == old(tickets)[ticket := if outcome.Leased? then old(tickets)[ticket].(waiting := false)
                                                else old(tickets)[ticket].(woken := false)]
    {
      ReachableCheck(state, ticket);
      ghost var before := state;
      var k := tickets[ticket];
      if k.cancelled {
        tickets := tickets[ticket := k.(waiting := false)];
        state := Leave(state, ticket);
        outcome := Raised;
      } else if k.awarded {
        tickets := tickets[ticket := k.(waiting := false)];
        state := Leave(state, ticket);
        Register(ticket, now, waitSeconds);
        outcome := Leased;
      } else {
        tickets := tickets[ticket := k.(woken := false)];
        state := SetTicket(state, ticket, k.(woken := false));
        outcome := StillWaiting;
      }
      assert !k.cancelled by { ReachableInv(before); }
    }

    /** The event loop of a waiter shuts down; nobody tells the manager. */
    method CloseLoop(ticket: nat)
      requires Valid() && ticket in tickets
      modifies this`tickets, this`state
      ensures Valid() && state == Apply(old(state), SlotProtocol.CloseLoop(ticket))
    {
      ReachableStep(state, SlotProtocol.CloseLoop(ticket));
      tickets := tickets[ticket := tickets[ticket].(loopOpen := false)];
      state := Apply(state, SlotProtocol.CloseLoop(ticket));
    }

    /** Both cancellation branches of acquire. */
    method Cancel(ticket: nat)
      requires Valid() && ticket in tickets && tickets[ticket].waiting
      modifies this`inUse, this`waiters, this`tickets, this`state
      ensures Valid() && state == CancelStep(old(state), ticket)
    {
      ReachableCancel(state, ticket);
      var k := tickets[ticket];
      if k.awarded {
        assert QueueLive(Leave(state, ticket)) by {
          ReachableInv(state);
          WinnerLeaves(state, ticket);
        }
        tickets := tickets[ticket := k.(waiting := false)];
        state := Leave(state, ticket);
        PassOnOrReturn();
      } else {
        assert QueueLive(state) && Queued(k) by { ReachableInv(state); }
        RemoveWaiter(ticket, k);
      }
    }

    method RemoveWaiter(ticket: nat, k: Ticket)
      requires Represents() && QueueLive(state) && ticket in tickets && tickets[ticket] == k && Queued(k)
      modifies this`waiters, this`tickets, this`state
      ensures Represents() && state == CancelStep(old(state), ticket)
    {
      var kept := Without(waiters, ticket);
      assert Elements(kept) == state.queue - {Entry(k.priority, ticket)};
      waiters := Heapify(kept);
      SameElements(kept, waiters);
      tickets := tickets[ticket := k.(cancelled := true, waiting := false)];
      state := CancelStep(state, ticket);
    }

    /** AgentSlotLease.bind_pid: zero counts as no process. */
    method BindPid(lease: nat, pid: int)
      requires Valid() && lease in granted
      modifies this`granted
      ensures Valid() && granted.Keys == old(granted).Keys
      ensures granted[lease] == old(granted)[lease].(process := if pid == 0 then Unbound else Pid(pid))
      ensures forall l :: l in granted && l != lease ==> granted[l] == old(granted)[l]
    {
      granted := granted[lease := granted[lease].(process := if pid == 0 then Unbound else Pid(pid))];
    }

    /** AgentSlotLease.release: the flag makes a second call a no-op. */
    method LeaseRelease(lease: nat)
      requires Valid() && lease in granted
      modifies this`inUse, this`waiters, this`tickets, this`leases, this`granted, this`state
      ensures Valid() && granted == old(granted)[lease := old(granted)[lease].(released := true)]
      ensures state == if old(granted)[lease].released then old(state)
                       else ReleaseStep(old(state), lease)
    {
      if granted[lease].released {
        return;
      }
      assert QueueLive(state) by { ReachableInv(state); }
      ReachableRelease(state, lease);
      granted := granted[lease := granted[lease].(released := true)];
      state := state.(held := state.held - {lease});
      ReleaseSlot(lease);
    }

    /** AgentProcessSlotManager.release. */
    method ReleaseSlot(lease: nat)
      requires Represents() && QueueLive(state) && lease !in state.held
      modifies this`inUse, this`waiters, this`tickets, this`leases, this`state
      ensures Represents() && state == ReleaseStep(old(state).(held := old(state).held + {lease}), lease)
    {
      assert state.held + {lease} - {lease} == state.held;
      leases := leases - {lease};
      state := state.(leases := leases);
      if inUse > capacity {
        inUse := Max(0, inUse - 1);
        state := state.(inUse := inUse);
        return;
      }
      PassOnOrReturn();
    }

    /** The process is gone, or no process was ever bound and the lease is too old. */
    predicate Orphaned(lease: nat, alive: set<int>, now: real, staleAge: real)
      reads this`granted
      requires lease in granted
    {
      var info := granted[lease];
      if info.process.Pid? then info.process.id !in alive else now - info.acquiredAt > staleAge
    }

    /** A lease granted directly outlives a scan up to its age limit, whatever lives, and later ones
        while a process bound to it lives. */
    method GrantedLeaseStays(priority: real, now: real, waitSeconds: real, alive: set<int>, later: real, staleAge: real,
                             pid: int, last: real)
      returns (ticket: nat)
      requires Valid() && 0.0 <= waitSeconds && inUse < capacity && later <= now + staleAge
      requires pid != 0
      modifies this
      ensures Valid() && (pid in alive ==> ticket in leases)
    {
      var direct, released;
      ticket, direct := Acquire(priority, now, waitSeconds);
      released := ForceReleaseOrphaned({}, later, staleAge);
      BindPid(ticket, pid);
      released := ForceReleaseOrphaned(alive, last, staleAge);
    }

    function OrphanedLeases(alive: set<int>, now: real, staleAge: real): set<nat>
      reads this`granted, this`leases
    {
      set l | l in leases && l in granted && Orphaned(l, alive, now, staleAge)
    }

    method ForceReleaseOrphaned(alive: set<int>, now: real, staleAge: real) returns (released: nat)
      requires Valid()
      modifies this`inUse, this`waiters, this`tickets, this`leases, this`state
      ensures Valid()
      ensures var dead := old(OrphanedLeases(alive, now, staleAge));
              state == ReclaimStep(old(state), dead) && released == |dead|
      ensures forall l :: l in old(leases) ==> l in granted
      ensures leases <= old(leases)
      ensures forall l :: l in old(leases) ==>
        (l in leases <==> if granted[l].process.Pid? then granted[l].process.id in alive else now <= granted[l].acquiredAt + staleAge)
    {
      var dead := OrphanedLeases(alive, now, staleAge);
      ReachableInv(state);
      ReachableReclaim(state, dead);
      released := Reclaim(dead);
    }

    /** The leases are dropped one by one; dropping them all first gives the same result. */
    method Reclaim(dead: set<nat>) returns (released: nat)
      requires Represents() && dead <= leases && QueueLive(state)
      modifies this`inUse, this`waiters, this`tickets, this`leases, this`state
      ensures Represents() && state == ReclaimStep(old(state), dead) && released == |dead|
      ensures leases == old(leases) - dead
    {
      released := 0;
      var rest := dead;
      leases := leases - dead;
      state := state.(leases := leases);
      ghost var target := PassOnMany(state, |dead|);
      while rest != {}
        invariant rest <= dead && released + |rest| == |dead|
        invariant Represents() && QueueLive(state)
        invariant PassOnMany(state, |rest|) == target && leases == old(leases) - dead
        decreases |rest|
      {
        var lid :| lid in rest;
        rest := rest - {lid};
        PassOnOrReturn();
        released := released + 1;
      }
    }
  }

  datatype WaitOutcome = Leased | Raised | StillWaiting

  /** The list comprehension that drops one ticket from the waiting list. */
  method Without(q: seq<Entry>, ticket: nat) returns (r: seq<Entry>)
    requires Distinct(q)
    ensures Distinct(r) && forall e :: e in r <==> e in q && e.sequence != ticket
  {
    r := [];
    for i := 0 to |q|
      invariant forall e :: e in r <==> e in q[..i] && e.sequence != ticket
      invariant forall e :: multiset(r)[e] <= multiset(q[..i])[e]
    {
      assert q[..i + 1] == q[..i] + [q[i]];
      if q[i].sequence != ticket {
        r := r + [q[i]];
      }
    }
    assert q[..|q|] == q;
    forall e | e in r ensures multiset(r)[e] == 1 {
      assert multiset(r)[e] <= multiset(q)[e];
      assert e in multiset(r);
    }
  }
}
