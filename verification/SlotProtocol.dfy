/** The agent slot protocol of `app/agent_slots.py` as a transition system.

    Every `with self._lock` block is one atomic step; the steps of any number of threads and event
    loops interleave freely.  A ticket is identified by its sequence number, which also names the
    lease it may turn into.
 */
module SlotProtocol {
  import opened HeapQ

  /** The flags of an AgentSlotTicket.  `woken` is its future being done, `loopOpen` its event loop
      still running, `waiting` its owner still being inside the acquire loop. */
  datatype Ticket = Ticket(
    priority: real, loopOpen: bool, woken: bool, awarded: bool, cancelled: bool, waiting: bool)

  /** `leases` are the registered leases; `held` those whose owner has not called release yet.
      A lease reclaimed as orphaned leaves `leases` but stays in `held`. */
  datatype State = State(
    capacity: int, inUse: int, sequence: nat, queue: set<Entry>, tickets: map<nat, Ticket>,
    leases: set<nat>, held: set<nat>, acquires: nat)

  /** A requested capacity; the source also accepts values that do not parse as integers. */
  datatype CapacityRequest = Unparsable | Requested(n: int)

  datatype Step =
    | Acquire(priority: real)
    | Check(t: nat)          // the waiter runs its check under the lock, on its open event loop
    | Cancel(t: nat)         // cancel event, or any exception thrown into the wait
    | CloseLoop(t: nat)      // environment: the waiter's event loop shuts down
    | Release(l: nat)
    | SetCapacity(request: CapacityRequest)
    | Reclaim(dead: set<nat>)

  const LIMIT_DEFAULT := 8
  const LIMIT_LIMIT := 128

  function Max(a: int, b: int): int { if a < b then b else a }

  function NormalizeLimit(request: CapacityRequest): (c: int)
    ensures 1 <= c <= LIMIT_LIMIT
  {
    match request
    case Unparsable => LIMIT_DEFAULT
    case Requested(n) => if n < 1 then 1 else if n > LIMIT_LIMIT then LIMIT_LIMIT else n
  }

  /** A requested capacity is granted as far as the limits of 1 and 128 allow: nothing in that range is
      nearer to the request. */
  lemma NearestLimit(request: CapacityRequest, m: int)
    requires 1 <= m <= 128
    ensures var c := NormalizeLimit(request);
            && 1 <= c <= 128
            && (request.Unparsable? ==> c == 8)
            && (request.Requested? && request.n <= m ==> c <= m)
            && (request.Requested? && request.n >= m ==> c >= m)
  {
  }

  function Init(capacity: int): State {
    State(Max(1, capacity), 0, 0, {}, map[], {}, {}, 0)
  }

  // ---- the least queued entry ----

  ghost predicate IsLeast(q: set<Entry>, e: Entry) {
    e in q && forall f :: f in q ==> !Before(f, e)
  }

  lemma {:induction false} LeastExists(q: set<Entry>) returns (e: Entry)
    requires q != {}
    ensures IsLeast(q, e)
    decreases |q|
  {
    e :| e in q;
    var rest := q - {e};
    if rest != {} {
      var f := LeastExists(rest);
      var best := if Before(f, e) then f else e;
      forall x | x in q ensures !Before(x, best) {
        if x != e { assert x in rest && !Before(x, f); }
      }
      e := best;
    }
  }

  ghost function Least(q: set<Entry>): (e: Entry)
    requires q != {}
    ensures IsLeast(q, e)
  {
    assert exists e :: IsLeast(q, e) by { var e := LeastExists(q); }
    var e :| IsLeast(q, e);
    e
  }

  // ---- pieces shared by the steps ----

  /** _wake_ticket, together with the awarded flag set just before it. */
  function Woken(t: Ticket): Ticket {
    if t.woken then t.(awarded := true)
    else if t.loopOpen then t.(awarded := true, woken := true)
    else t.(awarded := true, cancelled := true)
  }

  /** The slot goes straight to the best waiter; the count of used slots does not move. */
  ghost function Award(s: State): State
    requires s.queue != {}
  {
    var e := Least(s.queue);
    var tickets := if e.sequence in s.tickets
                   then s.tickets[e.sequence := Woken(s.tickets[e.sequence])] else s.tickets;
    s.(queue := s.queue - {e}, tickets := tickets)
  }

  /** Cancelled entries at the front of the queue are thrown away. */
  ghost function Skip(s: State): State
    decreases |s.queue|
  {
    if s.queue == {} then s
    else
      var e := Least(s.queue);
      if e.sequence in s.tickets && s.tickets[e.sequence].cancelled then Skip(s.(queue := s.queue - {e})) else s
  }

  /** Hand a returned slot to the best waiter, or give it back. */
  ghost function PassOn(s: State): State {
    if s.queue != {} then Award(s) else s.(inUse := Max(0, s.inUse - 1))
  }

  ghost function PassOnMany(s: State, n: nat): State
    decreases n
  {
    if n == 0 then s else PassOnMany(PassOn(s), n - 1)
  }

  /** New slots after a capacity change, one waiter at a time. */
  ghost function Grant(s: State): State
    decreases |s.queue|
  {
    if s.inUse < s.capacity && s.queue != {} then Grant(GrantOne(s)) else s
  }

  ghost function GrantOne(s: State): (s': State)
    requires s.queue != {}
    ensures |s'.queue| < |s.queue|
  {
    Award(s).(inUse := s.inUse + 1)
  }

  function SetTicket(s: State, t: nat, ticket: Ticket): State {
    s.(tickets := s.tickets[t := ticket])
  }

  function Lease(s: State, l: nat): State {
    s.(leases := s.leases + {l}, held := s.held + {l}, acquires := s.acquires + 1)
  }

  function Leave(s: State, t: nat): State
    requires t in s.tickets
  {
    SetTicket(s, t, s.tickets[t].(waiting := false))
  }

  // ---- the steps ----

  ghost predicate Enabled(s: State, step: Step) {
    match step
    case Acquire(_) => true
    case Check(t) => t in s.tickets && s.tickets[t].waiting && s.tickets[t].loopOpen
    case Cancel(t) => t in s.tickets && s.tickets[t].waiting
    case CloseLoop(t) => t in s.tickets
    case Release(l) => l in s.held
    case SetCapacity(_) => true
    case Reclaim(dead) => dead <= s.leases
  }

  ghost function AcquireStep(s: State, priority: real): State {
    var n := s.sequence + 1;
    var s1 := s.(sequence := n);
    var fresh_ := Ticket(priority, true, false, false, false, true);
    if s.inUse < s.capacity
    then Lease(SetTicket(s1.(inUse := s.inUse + 1), n, fresh_.(waiting := false)), n)
    else SetTicket(s1.(queue := s.queue + {Entry(priority, n)}), n, fresh_)
  }

  ghost function CheckStep(s: State, t: nat): State
    requires t in s.tickets
  {
    var ticket := s.tickets[t];
    if ticket.cancelled then Leave(s, t)
    else if ticket.awarded then Lease(Leave(s, t), t)
    else SetTicket(s, t, ticket.(woken := false))
  }

  ghost function CancelStep(s: State, t: nat): State
    requires t in s.tickets
  {
    var ticket := s.tickets[t];
    if ticket.awarded then PassOn(Leave(s, t))
    else SetTicket(s.(queue := s.queue - {Entry(ticket.priority, t)}), t,
                   ticket.(cancelled := true, waiting := false))
  }

  ghost function ReleaseStep(s: State, l: nat): State {
    var s1 := s.(leases := s.leases - {l}, held := s.held - {l});
    if s.inUse > s.capacity then s1.(inUse := Max(0, s.inUse - 1)) else PassOn(s1)
  }

  ghost function SetCapacityStep(s: State, r: CapacityRequest): State {
    Grant(s.(capacity := NormalizeLimit(r)))
  }

  ghost function ReclaimStep(s: State, dead: set<nat>): State {
    PassOnMany(s.(leases := s.leases - dead), |dead|)
  }

  ghost function Apply(s: State, step: Step): State
    requires Enabled(s, step)
  {
    match step
    case Acquire(p) => AcquireStep(s, p)
    case Check(t) => CheckStep(s, t)
    case Cancel(t) => CancelStep(s, t)
    case CloseLoop(t) => SetTicket(s, t, s.tickets[t].(loopOpen := false))
    case Release(l) => ReleaseStep(s, l)
    case SetCapacity(r) => SetCapacityStep(s, r)
    case Reclaim(dead) => ReclaimStep(s, dead)
  }

  // ---- runs ----

  datatype Run = Run(states: seq<State>, steps: seq<Step>)

  /** Any interleaving of any steps, starting from a fresh manager. */
  ghost predicate ValidRun(r: Run) {
    && |r.states| == |r.steps| + 1
    && (exists c :: r.states[0] == Init(c))
    && (forall i :: 0 <= i < |r.steps| ==> Enabled(r.states[i], r.steps[i]))
    && (forall i :: 0 <= i < |r.steps| ==> r.states[i + 1] == Apply(r.states[i], r.steps[i]))
  }

  // ---- invariants ----

  predicate Queued(t: Ticket) { t.waiting && !t.awarded && !t.cancelled }

  predicate TicketOk(k: Ticket, held: bool) {
    && (k.waiting && k.awarded && !k.cancelled ==> k.woken)
    && (k.waiting && k.cancelled ==> k.awarded && !k.loopOpen)
    && (held ==> !k.waiting)
  }

  ghost predicate QueueLive(s: State) {
    forall e :: e in s.queue ==>
      e.sequence in s.tickets && s.tickets[e.sequence].priority == e.priority && Queued(s.tickets[e.sequence])
  }

  ghost predicate Entries(s: State) {
    && QueueLive(s)
    && (forall t :: t in s.tickets && Queued(s.tickets[t]) ==> Entry(s.tickets[t].priority, t) in s.queue)
  }

  ghost predicate Flags(s: State) {
    forall t :: t in s.tickets ==> t <= s.sequence && TicketOk(s.tickets[t], t in s.held)
  }

  /** What every reachable state satisfies: the queue holds exactly the uncancelled unserved
      waiters, a served waiter has been woken, and nobody waits while a slot is free. */
  ghost predicate Inv(s: State) {
    && 1 <= s.capacity && 0 <= s.inUse
    && Entries(s)
    && Flags(s)
    && s.leases <= s.held <= s.tickets.Keys
    && (s.queue != {} ==> s.inUse >= s.capacity)
  }

  /** Tickets that were given a slot and have neither claimed it nor passed it on. */
  ghost function Pending(s: State): set<nat> {
    set t | t in s.tickets && s.tickets[t].waiting && s.tickets[t].awarded
  }

  /** Every used slot is a registered lease or an award on its way. */
  ghost predicate Conserved(s: State) {
    s.inUse == |s.leases| + |Pending(s)|
  }
}
