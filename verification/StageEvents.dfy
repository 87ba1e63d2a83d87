/** Stage metrics from a task's event log: starts, completions with their durations, and what still runs. */
module StageEvents {
  import opened Options
  import StableSort

  datatype Stage = R1 | R2 | R3 | R4

  datatype Role = Worker | Judge

  datatype Phase = Start | Done | Retried

  datatype Status = Passed | Failed | Completed | Retry | Running

  datatype Spec = Spec(stage: Stage, role: Role, phase: Phase)

  /** An event; `spec` is none for the types outside the stage map. */
  datatype Event = Event(ts: real, spec: Option<Spec>, identity: string, session: string, verdict: Option<bool>)

  datatype Key = Key(stage: Stage, role: Role, identity: string)

  datatype Cell = Cell(stage: Stage, status: Status)

  datatype Seat = Seat(stage: Stage, role: Role)

  datatype Visit = Visit(stage: Stage, session: string)

  /** How many durations, and their sum. */
  datatype Timing = Timing(count: nat, sum: real)

  /** The tables that the caller passes in. */
  datatype Tables = Tables(status: map<Cell, nat>, durations: map<Cell, Timing>, roles: map<Seat, nat>, sessions: map<Stage, nat>)

  /** The state of one pass; `keys` is the insertion order of `open`. */
  datatype Pass = Pass(open: map<Key, seq<real>>, keys: seq<Key>, seen: set<Visit>)

  datatype Counts = Counts(tables: Tables, pass: Pass)

  const NOTHING_OPEN := Pass(map[], [], {})

  function Of<K>(m: map<K, nat>, k: K): nat {
    if k in m then m[k] else 0
  }

  function Timed(m: map<Cell, Timing>, k: Cell): Timing {
    if k in m then m[k] else Timing(0, 0.0)
  }

  function Opened(p: Pass, k: Key): seq<real> {
    if k in p.open then p.open[k] else []
  }

  /** _stage_status_from_event. */
  function StatusOf(role: Role, verdict: Option<bool>): Status {
    match role
    case Worker => Passed
    case Judge => if verdict.None? then Completed else if verdict.value then Passed else Failed
  }

  function SetOpen(p: Pass, k: Key, times: seq<real>): Pass {
    p.(open := p.open[k := times], keys := if k in p.open then p.keys else p.keys + [k])
  }

  function SeeSession(c: Counts, v: Visit): (d: Counts)
    ensures d.pass.open == c.pass.open && d.pass.keys == c.pass.keys
    ensures d.tables == c.tables.(sessions := d.tables.sessions)
  {
    if v.session != "" && v !in c.pass.seen
    then Counts(c.tables.(sessions := c.tables.sessions[v.stage := Of(c.tables.sessions, v.stage) + 1]),
                c.pass.(seen := c.pass.seen + {v}))
    else c
  }

  function CountStart(t: Tables, k: Seat): Tables {
    t.(roles := t.roles[k := Of(t.roles, k) + 1])
  }

  function CountStatus(t: Tables, k: Cell, n: nat): Tables {
    t.(status := t.status[k := Of(t.status, k) + n])
  }

  function AddDuration(t: Tables, k: Cell, d: real): Tables {
    t.(durations := t.durations[k := Timing(Timed(t.durations, k).count + 1, Timed(t.durations, k).sum + d)])
  }

  function Gap(from: real, to: real): real {
    if to - from < 0.0 then 0.0 else to - from
  }

  function Observe(c: Counts, e: Event): Counts {
    if e.spec.None? then c
    else
      var spec := e.spec.value;
      var k := Key(spec.stage, spec.role, e.identity);
      ObservePhase(SeeSession(c, Visit(spec.stage, e.session)), k, spec.phase, e.ts, StatusOf(spec.role, e.verdict))
  }

  function ObservePhase(c: Counts, k: Key, phase: Phase, ts: real, status: Status): Counts {
    match phase
    case Start => Counts(CountStart(c.tables, Seat(k.stage, k.role)), SetOpen(c.pass, k, Opened(c.pass, k) + [ts]))
    case Retried => c.(tables := CountStatus(c.tables, Cell(k.stage, Retry), 1))
    case Done => ObserveDone(c, k, ts, Cell(k.stage, status))
  }

  function ObserveDone(c: Counts, k: Key, ts: real, cell: Cell): Counts {
    var times, counted := Opened(c.pass, k), CountStatus(c.tables, cell, 1);
    if times == [] then Counts(counted, SetOpen(c.pass, k, []))
    else Counts(AddDuration(counted, cell, Gap(times[0], ts)), SetOpen(c.pass, k, times[1..]))
  }

  function ObserveAll(c: Counts, es: seq<Event>): Counts {
    if es == [] then c else Observe(ObserveAll(c, es[..|es| - 1]), es[|es| - 1])
  }

  /** The open events of a stage. */
  function OpenIn(open: map<Key, seq<real>>, keys: seq<Key>, s: Stage): nat {
    if keys == [] then 0
    else
      var k := keys[|keys| - 1];
      OpenIn(open, keys[..|keys| - 1], s) + (if k.stage == s && k in open then |open[k]| else 0)
  }

  function AddRunning(t: Tables, p: Pass, keys: seq<Key>): Tables {
    if keys == [] then t
    else
      var before, k := AddRunning(t, p, keys[..|keys| - 1]), keys[|keys| - 1];
      if Opened(p, k) == [] then before else CountStatus(before, Cell(k.stage, Running), |Opened(p, k)|)
  }

  predicate Earlier(a: Event, b: Event) {
    a.ts <= b.ts
  }

  /** The whole pass over a log. */
  function Accumulated(t: Tables, log: seq<Event>): Tables {
    var all := ObserveAll(Counts(t, NOTHING_OPEN), StableSort.Sort(log, Earlier));
    AddRunning(all.tables, all.pass, all.pass.keys)
  }

  class StageTables {
    var status: map<Cell, nat>
    var durations: map<Cell, Timing>
    var roles: map<Seat, nat>
    var sessions: map<Stage, nat>

    constructor ()
      ensures Value() == Tables(map[], map[], map[], map[])
    {
      status, durations, roles, sessions := map[], map[], map[], map[];
    }

    function Value(): Tables reads this {
      Tables(status, durations, roles, sessions)
    }

    /** The session of an event is counted once for each stage. */
    method NoteSession(v: Visit, p: Pass) returns (q: Pass)
      modifies this`sessions
      ensures Counts(Value(), q) == SeeSession(Counts(old(Value()), p), v)
    {
      q := p;
      if v.session != "" && v !in p.seen {
        q := p.(seen := p.seen + {v});
        sessions := sessions[v.stage := Of(sessions, v.stage) + 1];
      }
    }

    /** A completion is paired with the oldest open start of its key. */
    method NoteDone(k: Key, cell: Cell, ts: real, p: Pass) returns (q: Pass)
      modifies this`status, this`durations
      ensures Counts(Value(), q) == ObserveDone(Counts(old(Value()), p), k, ts, cell)
    {
      status := status[cell := Of(status, cell) + 1];
      if k in p.open && p.open[k] != [] {
        var started := p.open[k][0];
        q := p.(open := p.open[k := p.open[k][1..]]);
        var duration := if ts - started < 0.0 then 0.0 else ts - started;
        var bucket := Timed(durations, cell);
        durations := durations[cell := Timing(bucket.count + 1, bucket.sum + duration)];
      } else {
        q := p.(open := p.open[k := []], keys := if k in p.open then p.keys else p.keys + [k]);
      }
    }

    /** One event of the sorted log. */
    method ObserveEvent(e: Event, p: Pass) returns (q: Pass)
      modifies this
      ensures Counts(Value(), q) == Observe(Counts(old(Value()), p), e)
    {
      if e.spec.None? { return p; }
      var stage, role, phase := e.spec.value.stage, e.spec.value.role, e.spec.value.phase;
      var k := Key(stage, role, e.identity);
      q := NoteSession(Visit(stage, e.session), p);
      match phase {
        case Start =>
          roles := roles[Seat(stage, role) := Of(roles, Seat(stage, role)) + 1];
          q := q.(open := q.open[k := (if k in q.open then q.open[k] else []) + [e.ts]],
                  keys := if k in q.open then q.keys else q.keys + [k]);
        case Retried =>
          status := status[Cell(stage, Retry) := Of(status, Cell(stage, Retry)) + 1];
        case Done =>
          q := NoteDone(k, Cell(stage, StatusOf(role, e.verdict)), e.ts, q);
      }
    }

    /** What is still open counts as running. */
    method NoteRunning(p: Pass)
      modifies this`status
      ensures Value() == AddRunning(old(Value()), p, p.keys)
    {
      ghost var start := Value();
      for i := 0 to |p.keys|
        invariant Value() == AddRunning(start, p, p.keys[..i])
      {
        assert p.keys[..i + 1][..i] == p.keys[..i];
        var k := p.keys[i];
        var pending := if k in p.open then |p.open[k]| else 0;
        if pending > 0 {
          status := status[Cell(k.stage, Running) := Of(status, Cell(k.stage, Running)) + pending];
        }
      }
      assert p.keys[..|p.keys|] == p.keys;
    }

    /** _accumulate_stage_events. */
    method AccumulateStageEvents(log: seq<Event>)
      modifies this
      ensures Value() == Accumulated(old(Value()), log)
    {
      var ordered := StableSort.Sort(log, Earlier);
      var p := NOTHING_OPEN;
      ghost var start := Counts(Value(), p);
      for i := 0 to |ordered|
        invariant Counts(Value(), p) == ObserveAll(start, ordered[..i])
      {
        assert ordered[..i + 1][..i] == ordered[..i];
        p := ObserveEvent(ordered[i], p);
      }
      assert ordered[..|ordered|] == ordered;
      NoteRunning(p);
    }
  }

  /** The starts of a stage over both roles. */
  function Started(t: Tables, s: Stage): nat {
    Of(t.roles, Seat(s, Worker)) + Of(t.roles, Seat(s, Judge))
  }

  /** The durations of a stage over all statuses. */
  function Matched(t: Tables, s: Stage): nat {
    AllStatuses(t.durations, s)
  }

  function AllStatuses(m: map<Cell, Timing>, s: Stage): nat {
    Timed(m, Cell(s, Passed)).count + Timed(m, Cell(s, Failed)).count + Timed(m, Cell(s, Completed)).count
    + Timed(m, Cell(s, Retry)).count + Timed(m, Cell(s, Running)).count
  }

  function RunningOf(t: Tables, s: Stage): nat {
    Of(t.status, Cell(s, Running))
  }

  /** The keys are those of the open map, each once. */
  ghost predicate KeysOk(p: Pass) {
    Distinct(p.keys) && forall k :: k in p.keys <==> k in p.open
  }

  predicate Distinct(keys: seq<Key>) {
    keys != [] ==> keys[|keys| - 1] !in keys[..|keys| - 1] && Distinct(keys[..|keys| - 1])
  }

  lemma {:induction false} OpenElsewhere(open: map<Key, seq<real>>, keys: seq<Key>, k: Key, times: seq<real>, s: Stage)
    requires k !in keys
    ensures OpenIn(open[k := times], keys, s) == OpenIn(open, keys, s)
  {
    if keys != [] { OpenElsewhere(open, keys[..|keys| - 1], k, times, s); }
  }

  lemma {:induction false} OpenChanged(open: map<Key, seq<real>>, keys: seq<Key>, k: Key, times: seq<real>, s: Stage)
    requires k in keys && k in open && Distinct(keys)
    ensures OpenIn(open[k := times], keys, s) ==
            OpenIn(open, keys, s) + (if k.stage == s then |times| - |open[k]| else 0)
  {
    var n := |keys| - 1;
    if keys[n] == k {
      OpenElsewhere(open, keys[..n], k, times, s);
    } else {
      OpenChanged(open, keys[..n], k, times, s);
    }
  }

  function Pending(p: Pass, s: Stage): nat {
    OpenIn(p.open, p.keys, s)
  }

  lemma SetOpenKeys(p: Pass, k: Key, times: seq<real>)
    requires KeysOk(p)
    ensures KeysOk(SetOpen(p, k, times))
  {
    if k !in p.open {
      assert (p.keys + [k])[..|p.keys|] == p.keys;
    }
  }

  lemma SetOpenPending(p: Pass, k: Key, times: seq<real>, s: Stage)
    requires KeysOk(p)
    ensures Pending(SetOpen(p, k, times), s) == Pending(p, s) + (if k.stage == s then |times| - |Opened(p, k)| else 0)
  {
    if k in p.open {
      OpenChanged(p.open, p.keys, k, times, s);
    } else {
      assert (p.keys + [k])[..|p.keys|] == p.keys;
      OpenElsewhere(p.open, p.keys, k, times, s);
    }
  }

  lemma StartedMore(t: Tables, k: Seat, s: Stage)
    ensures Started(CountStart(t, k), s) == Started(t, s) + (if k.stage == s then 1 else 0)
  {
    match k.role
    case Worker =>
    case Judge =>
  }

  lemma TimedMore(m: map<Cell, Timing>, k: Cell, v: Timing, j: Cell)
    requires v.count == Timed(m, k).count + 1
    ensures Timed(m[k := v], j).count == Timed(m, j).count + (if j == k then 1 else 0)
  {
  }

  lemma AllStatusesMore(m: map<Cell, Timing>, k: Cell, v: Timing, s: Stage)
    requires v.count == Timed(m, k).count + 1
    ensures AllStatuses(m[k := v], s) == AllStatuses(m, s) + (if k.stage == s then 1 else 0)
  {
    TimedMore(m, k, v, Cell(s, Passed));
    TimedMore(m, k, v, Cell(s, Failed));
    TimedMore(m, k, v, Cell(s, Completed));
    TimedMore(m, k, v, Cell(s, Retry));
    TimedMore(m, k, v, Cell(s, Running));
    match k.status
    case Passed =>
    case Failed =>
    case Completed =>
    case Retry =>
    case Running =>
  }

  /** What has started is matched or open: the difference stays the same. */
  function Balance(c: Counts, s: Stage): int {
    Started(c.tables, s) - Matched(c.tables, s) - Pending(c.pass, s)
  }

  /** `d` keeps the balance of `c`, and counts nothing as running yet. */
  ghost predicate Balanced(c: Counts, d: Counts, s: Stage) {
    KeysOk(d.pass) && Balance(d, s) == Balance(c, s) && RunningOf(d.tables, s) == RunningOf(c.tables, s)
  }

  lemma UnpairedBalances(c: Counts, k: Key, cell: Cell, s: Stage)
    requires KeysOk(c.pass) && cell.status != Running && Opened(c.pass, k) == []
    ensures Balanced(c, Counts(CountStatus(c.tables, cell, 1), SetOpen(c.pass, k, [])), s)
  {
    SetOpenKeys(c.pass, k, []);
    SetOpenPending(c.pass, k, [], s);
  }

  lemma MatchedMore(t: Tables, u: Tables, k: Cell, v: Timing, s: Stage)
    requires v.count == Timed(t.durations, k).count + 1 && u == t.(durations := t.durations[k := v])
    ensures Matched(u, s) == Matched(t, s) + (if k.stage == s then 1 else 0)
  {
    var m, n := t.durations, u.durations;
    assert n == m[k := v];
    AllStatusesMore(m, k, v, s);
  }

  lemma PairedBalances(c: Counts, k: Key, cell: Cell, d: real, s: Stage)
    requires KeysOk(c.pass) && cell.status != Running && cell.stage == k.stage && Opened(c.pass, k) != []
    ensures Balanced(c, Counts(AddDuration(CountStatus(c.tables, cell, 1), cell, d), SetOpen(c.pass, k, Opened(c.pass, k)[1..])), s)
  {
    var times := Opened(c.pass, k)[1..];
    SetOpenKeys(c.pass, k, times);
    SetOpenPending(c.pass, k, times, s);
    var t := CountStatus(c.tables, cell, 1);
    var v := Timing(Timed(t.durations, cell).count + 1, Timed(t.durations, cell).sum + d);
    MatchedMore(t, AddDuration(t, cell, d), cell, v, s);
  }

  lemma DoneBalances(c: Counts, k: Key, ts: real, cell: Cell, s: Stage)
    requires KeysOk(c.pass) && cell.status != Running && cell.stage == k.stage
    ensures Balanced(c, ObserveDone(c, k, ts, cell), s)
  {
    if Opened(c.pass, k) == [] {
      UnpairedBalances(c, k, cell, s);
    } else {
      PairedBalances(c, k, cell, Gap(Opened(c.pass, k)[0], ts), s);
    }
  }

  lemma StartBalances(c: Counts, k: Key, ts: real, s: Stage)
    requires KeysOk(c.pass)
    ensures Balanced(c, Counts(CountStart(c.tables, Seat(k.stage, k.role)), SetOpen(c.pass, k, Opened(c.pass, k) + [ts])), s)
  {
    StartedMore(c.tables, Seat(k.stage, k.role), s);
    SetOpenKeys(c.pass, k, Opened(c.pass, k) + [ts]);
    SetOpenPending(c.pass, k, Opened(c.pass, k) + [ts], s);
  }

  lemma SessionBalances(c: Counts, v: Visit, s: Stage)
    requires KeysOk(c.pass)
    ensures Balanced(c, SeeSession(c, v), s)
  {
  }

  lemma PhaseBalances(c: Counts, k: Key, phase: Phase, ts: real, status: Status, s: Stage)
    requires KeysOk(c.pass) && status != Running
    ensures Balanced(c, ObservePhase(c, k, phase, ts, status), s)
  {
    match phase
    case Start => StartBalances(c, k, ts, s);
    case Retried =>
    case Done => DoneBalances(c, k, ts, Cell(k.stage, status), s);
  }

  lemma EventBalances(c: Counts, e: Event, s: Stage)
    requires KeysOk(c.pass)
    ensures Balanced(c, Observe(c, e), s)
  {
    if e.spec.Some? {
      var spec := e.spec.value;
      var seen := SeeSession(c, Visit(spec.stage, e.session));
      SessionBalances(c, Visit(spec.stage, e.session), s);
      PhaseBalances(seen, Key(spec.stage, spec.role, e.identity), spec.phase, e.ts, StatusOf(spec.role, e.verdict), s);
    }
  }

  lemma {:induction false} AllBalances(c: Counts, es: seq<Event>, s: Stage)
    requires KeysOk(c.pass)
    ensures Balanced(c, ObserveAll(c, es), s)
  {
    if es != [] {
      AllBalances(c, es[..|es| - 1], s);
      EventBalances(ObserveAll(c, es[..|es| - 1]), es[|es| - 1], s);
    }
  }

  lemma {:induction false} RunningAdded(t: Tables, p: Pass, keys: seq<Key>, s: Stage)
    ensures RunningOf(AddRunning(t, p, keys), s) == RunningOf(t, s) + OpenIn(p.open, keys, s)
    ensures AddRunning(t, p, keys).durations == t.durations && AddRunning(t, p, keys).roles == t.roles
    ensures AddRunning(t, p, keys).sessions == t.sessions
  {
    if keys != [] { RunningAdded(t, p, keys[..|keys| - 1], s); }
  }

  /** Over one log, the starts of a stage are its matched completions and the events still running. */
  lemma StartsAreMatchedOrRunning(t: Tables, log: seq<Event>, s: Stage)
    ensures var d := Accumulated(t, log);
            Started(d, s) - Started(t, s) == (Matched(d, s) - Matched(t, s)) + (RunningOf(d, s) - RunningOf(t, s))
  {
    var es := StableSort.Sort(log, Earlier);
    AllBalances(Counts(t, NOTHING_OPEN), es, s);
    var all := ObserveAll(Counts(t, NOTHING_OPEN), es);
    RunningAdded(all.tables, all.pass, all.pass.keys, s);
  }

  predicate IsPhase(e: Event, k: Key, phase: Phase) {
    e.spec == Some(Spec(k.stage, k.role, phase)) && e.identity == k.identity
  }

  /** When the starts of a key happened, in order. */
  function StartTimes(es: seq<Event>, k: Key): seq<real> {
    if es == [] then []
    else
      var e := es[|es| - 1];
      StartTimes(es[..|es| - 1], k) + (if IsPhase(e, k, Start) then [e.ts] else [])
  }

  /** How many completions of a key found an open start. */
  function Paired(es: seq<Event>, k: Key): (n: nat)
    ensures n <= |StartTimes(es, k)|
  {
    if es == [] then 0
    else
      var front := es[..|es| - 1];
      Paired(front, k) + (if IsPhase(es[|es| - 1], k, Done) && Paired(front, k) < |StartTimes(front, k)| then 1 else 0)
  }

  lemma OpenAfter(c: Counts, e: Event, k: Key)
    ensures Opened(Observe(c, e).pass, k) ==
            if IsPhase(e, k, Start) then Opened(c.pass, k) + [e.ts]
            else if IsPhase(e, k, Done) && Opened(c.pass, k) != [] then Opened(c.pass, k)[1..]
            else Opened(c.pass, k)
  {
  }

  /** Pairing is first in, first out: the n-th completion takes the n-th start, and the rest stay open. */
  lemma {:induction false} PairingIsFifo(t: Tables, es: seq<Event>, k: Key)
    ensures Opened(ObserveAll(Counts(t, NOTHING_OPEN), es).pass, k) == StartTimes(es, k)[Paired(es, k)..]
  {
    if es != [] {
      var front, e := es[..|es| - 1], es[|es| - 1];
      PairingIsFifo(t, front, k);
      OpenAfter(ObserveAll(Counts(t, NOTHING_OPEN), front), e, k);
    }
  }

  function KeyOf(e: Event): Key
    requires e.spec.Some?
  {
    Key(e.spec.value.stage, e.spec.value.role, e.identity)
  }

  /** The duration that a completion adds: from the start it is paired with. */
  function PairGap(front: seq<Event>, e: Event): Option<real> {
    if e.spec.None? || !e.spec.value.phase.Done? then None
    else if Paired(front, KeyOf(e)) == |StartTimes(front, KeyOf(e))| then None
    else Some(e.ts - StartTimes(front, KeyOf(e))[Paired(front, KeyOf(e))])
  }

  function CellOf(e: Event): Cell
    requires e.spec.Some?
  {
    Cell(e.spec.value.stage, StatusOf(e.spec.value.role, e.verdict))
  }

  /** A completion counts as passed if a worker makes it or the judge's verdict is positive, as failed if
      the verdict is negative, and as completed if the judge gives none. */
  predicate Belongs(e: Event, cell: Cell) {
    && e.spec.Some? && e.spec.value.phase.Done? && e.spec.value.stage == cell.stage
    && match cell.status
       case Passed => e.spec.value.role.Worker? || e.verdict == Some(true)
       case Failed => e.spec.value.role.Judge? && e.verdict == Some(false)
       case Completed => e.spec.value.role.Judge? && e.verdict == None
       case _ => false
  }

  /** The number and the sum of the durations of a stage and status. */
  function PairSum(es: seq<Event>, cell: Cell): Timing {
    if es == [] then Timing(0, 0.0)
    else
      var e, before := es[|es| - 1], PairSum(es[..|es| - 1], cell);
      Bump(before, PairGap(es[..|es| - 1], e), e, cell)
  }

  /** `t` with the gap of `e` added if it belongs to `cell`. */
  function Bump(t: Timing, gap: Option<real>, e: Event, cell: Cell): Timing {
    if gap.Some? && Belongs(e, cell) then Timing(t.count + 1, t.sum + gap.value) else t
  }

  predicate InOrder(es: seq<Event>) {
    forall i, j :: 0 <= i < j < |es| ==> es[i].ts <= es[j].ts
  }

  lemma {:induction false} StartsBefore(es: seq<Event>, k: Key, t: real)
    requires forall e :: e in es ==> e.ts <= t
    ensures forall x :: x in StartTimes(es, k) ==> x <= t
  {
    if es != [] { StartsBefore(es[..|es| - 1], k, t); }
  }

  /** In a sorted log no completion comes before its start. */
  lemma GapNotNegative(es: seq<Event>, i: nat)
    requires InOrder(es) && i < |es| && PairGap(es[..i], es[i]).Some?
    ensures PairGap(es[..i], es[i]).value >= 0.0
  {
    var k := KeyOf(es[i]);
    StartsBefore(es[..i], k, es[i].ts);
    var times := StartTimes(es[..i], k);
    assert times[Paired(es[..i], k)] in times;
  }

  /** A completion adds its gap to its own cell, and no other event adds any. */
  lemma DurationAfter(c: Counts, e: Event, gap: Option<real>, cell: Cell)
    requires gap.Some? <==> e.spec.Some? && e.spec.value.phase.Done? && Opened(c.pass, KeyOf(e)) != []
    requires gap.Some? ==> gap.value == e.ts - Opened(c.pass, KeyOf(e))[0] && gap.value >= 0.0
    ensures Timed(Observe(c, e).tables.durations, cell) == Bump(Timed(c.tables.durations, cell), gap, e, cell)
  {
    if gap.Some? { assert CellOf(e) == cell <==> Belongs(e, cell); }
  }

  function PlusTiming(a: Timing, b: Timing): Timing {
    Timing(a.count + b.count, a.sum + b.sum)
  }

  lemma BumpPlus(a: Timing, b: Timing, gap: Option<real>, e: Event, cell: Cell)
    ensures PlusTiming(a, Bump(b, gap, e, cell)) == Bump(PlusTiming(a, b), gap, e, cell)
  {
  }

  /** The pairing of the last event of a sorted log, and what it adds. */
  lemma LastPair(t: Tables, es: seq<Event>, cell: Cell)
    requires es != [] && InOrder(es)
    ensures var front, e := es[..|es| - 1], es[|es| - 1];
            var c := ObserveAll(Counts(t, NOTHING_OPEN), front);
            Timed(Observe(c, e).tables.durations, cell) == Bump(Timed(c.tables.durations, cell), PairGap(front, e), e, cell)
  {
    var front, e := es[..|es| - 1], es[|es| - 1];
    if e.spec.Some? { PairingIsFifo(t, front, KeyOf(e)); }
    if PairGap(front, e).Some? { GapNotNegative(es, |es| - 1); }
    DurationAfter(ObserveAll(Counts(t, NOTHING_OPEN), front), e, PairGap(front, e), cell);
  }

  /** The durations of a log are those of its pairs, and no clamp is ever needed. */
  lemma {:induction false} DurationsArePairs(t: Tables, es: seq<Event>, cell: Cell)
    requires InOrder(es)
    ensures Timed(ObserveAll(Counts(t, NOTHING_OPEN), es).tables.durations, cell) ==
            PlusTiming(Timed(t.durations, cell), PairSum(es, cell))
  {
    if es != [] {
      var front, e := es[..|es| - 1], es[|es| - 1];
      DurationsArePairs(t, front, cell);
      LastPair(t, es, cell);
      BumpPlus(Timed(t.durations, cell), PairSum(front, cell), PairGap(front, e), e, cell);
    }
  }

  /** The same over a whole pass, which sorts the log first. */
  lemma PassDurations(t: Tables, log: seq<Event>, cell: Cell)
    ensures var es := StableSort.Sort(log, Earlier);
            && InOrder(es) && multiset(es) == multiset(log)
            && Timed(Accumulated(t, log).durations, cell) == PlusTiming(Timed(t.durations, cell), PairSum(es, cell))
  {
    var es := StableSort.Sort(log, Earlier);
    assert StableSort.TotalPreorder(Earlier);
    StableSort.SortSorts(log, Earlier);
    StableSort.SortPermutes(log, Earlier);
    assert InOrder(es);
    DurationsArePairs(t, es, cell);
    var all := ObserveAll(Counts(t, NOTHING_OPEN), es);
    RunningAdded(all.tables, all.pass, all.pass.keys, cell.stage);
  }

  // ---- what the other tables count ----

  /** The event names a session of the stage. */
  predicate NamesSession(e: Event, s: Stage) {
    e.spec.Some? && e.spec.value.stage == s && e.session != ""
  }

  function SessionsOf(es: seq<Event>, s: Stage): set<string> {
    set e | e in es && NamesSession(e, s) :: e.session
  }

  lemma SessionsSnoc(es: seq<Event>, e: Event, s: Stage)
    ensures SessionsOf(es + [e], s) == SessionsOf(es, s) + (if NamesSession(e, s) then {e.session} else {})
  {
    assert forall x :: x in es + [e] <==> x in es || x == e;
  }

  lemma SessionAfter(c: Counts, e: Event, s: Stage)
    ensures var d, v := Observe(c, e), Visit(s, e.session);
            && d.pass.seen == (if e.spec.Some? && e.session != "" then c.pass.seen + {Visit(e.spec.value.stage, e.session)} else c.pass.seen)
            && Of(d.tables.sessions, s) == Of(c.tables.sessions, s) + (if NamesSession(e, s) && v !in c.pass.seen then 1 else 0)
  {
  }

  /** The sessions seen, and their number for a stage. */
  ghost predicate SessionsRight(t: Tables, c: Counts, es: seq<Event>, s: Stage) {
    && (forall x :: Visit(s, x) in c.pass.seen <==> x in SessionsOf(es, s))
    && Of(c.tables.sessions, s) == Of(t.sessions, s) + |SessionsOf(es, s)|
  }

  lemma SessionStep(t: Tables, c: Counts, front: seq<Event>, e: Event, s: Stage)
    requires SessionsRight(t, c, front, s)
    ensures SessionsRight(t, Observe(c, e), front + [e], s)
  {
    SessionAfter(c, e, s);
    SessionsSnoc(front, e, s);
    var before := SessionsOf(front, s);
    if NamesSession(e, s) {
      assert Visit(s, e.session) in c.pass.seen <==> e.session in before;
      if e.session in before { assert before + {e.session} == before; }
    }
  }

  lemma {:induction false} SessionsCounted(t: Tables, es: seq<Event>, s: Stage)
    ensures SessionsRight(t, ObserveAll(Counts(t, NOTHING_OPEN), es), es, s)
  {
    if es == [] {
      assert SessionsOf(es, s) == {};
    } else {
      var front, e := es[..|es| - 1], es[|es| - 1];
      SessionsCounted(t, front, s);
      SessionStep(t, ObserveAll(Counts(t, NOTHING_OPEN), front), front, e, s);
      assert es == front + [e];
    }
  }

  /** Over a pass, a stage gains one for each distinct session that its events name. */
  lemma SessionsAreDistinct(t: Tables, log: seq<Event>, s: Stage)
    ensures Of(Accumulated(t, log).sessions, s) == Of(t.sessions, s) + |SessionsOf(log, s)|
  {
    var es := StableSort.Sort(log, Earlier);
    SessionsCounted(t, es, s);
    StableSort.SortMembers(log, Earlier);
    assert SessionsOf(es, s) == SessionsOf(log, s);
    var all := ObserveAll(Counts(t, NOTHING_OPEN), es);
    RunningAdded(all.tables, all.pass, all.pass.keys, s);
  }

  /** Over a pass into empty tables, the entries are the counts themselves. */
  lemma FreshTables(log: seq<Event>, cell: Cell, seat: Seat, s: Stage)
    requires cell.status != Running
    ensures var d := Accumulated(Tables(map[], map[], map[], map[]), log);
            && (|StableSort.Filter(log, Into(cell))| > 0 ==>
                  cell in d.status && d.status[cell] == |StableSort.Filter(log, Into(cell))|)
            && (|StableSort.Filter(log, StartsOf(seat))| > 0 ==>
                  seat in d.roles && d.roles[seat] == |StableSort.Filter(log, StartsOf(seat))|)
            && (SessionsOf(log, s) != {} ==> s in d.sessions && d.sessions[s] == |SessionsOf(log, s)|)
  {
    var empty := Tables(map[], map[], map[], map[]);
    StatusesAreCompletions(empty, log, cell, seat);
    SessionsAreDistinct(empty, log, s);
  }

  lemma FreshDurations(log: seq<Event>, cell: Cell)
    ensures var pairs := PairSum(StableSort.Sort(log, Earlier), cell);
            var d := Accumulated(Tables(map[], map[], map[], map[]), log).durations;
            pairs.count > 0 ==> cell in d && d[cell] == pairs
  {
    PassDurations(Tables(map[], map[], map[], map[]), log, cell);
  }

  /** The event counts into a cell of the status table: a retry, or a completion with that status. */
  predicate CountsInto(e: Event, cell: Cell) {
    && e.spec.Some? && e.spec.value.stage == cell.stage
    && match e.spec.value.phase
       case Start => false
       case Retried => cell.status == Retry
       case Done => Belongs(e, cell)
  }

  predicate StartsIn(e: Event, seat: Seat) {
    e.spec.Some? && e.spec.value == Spec(seat.stage, seat.role, Start)
  }

  function Into(cell: Cell): Event -> bool {
    (e: Event) => CountsInto(e, cell)
  }

  function StartsOf(seat: Seat): Event -> bool {
    (e: Event) => StartsIn(e, seat)
  }

  lemma PhaseCounts(c: Counts, k: Key, phase: Phase, ts: real, status: Status, cell: Cell, seat: Seat)
    ensures var d := ObservePhase(c, k, phase, ts, status).tables;
            && Of(d.status, cell) == Of(c.tables.status, cell) +
                 (if !phase.Start? && cell == Cell(k.stage, if phase.Retried? then Retry else status) then 1 else 0)
            && Of(d.roles, seat) == Of(c.tables.roles, seat) + (if phase.Start? && seat == Seat(k.stage, k.role) then 1 else 0)
  {
  }

  lemma EventCounts(c: Counts, e: Event, cell: Cell, seat: Seat)
    ensures Of(Observe(c, e).tables.status, cell) == Of(c.tables.status, cell) + (if CountsInto(e, cell) then 1 else 0)
    ensures Of(Observe(c, e).tables.roles, seat) == Of(c.tables.roles, seat) + (if StartsIn(e, seat) then 1 else 0)
  {
    if e.spec.Some? {
      var spec := e.spec.value;
      PhaseCounts(SeeSession(c, Visit(spec.stage, e.session)), Key(spec.stage, spec.role, e.identity), spec.phase, e.ts,
                  StatusOf(spec.role, e.verdict), cell, seat);
    }
  }

  lemma {:induction false} EventsCounted(t: Tables, es: seq<Event>, cell: Cell, seat: Seat)
    ensures var d := ObserveAll(Counts(t, NOTHING_OPEN), es).tables;
            && Of(d.status, cell) == Of(t.status, cell) + |StableSort.Filter(es, Into(cell))|
            && Of(d.roles, seat) == Of(t.roles, seat) + |StableSort.Filter(es, StartsOf(seat))|
  {
    if es != [] {
      var front, e := es[..|es| - 1], es[|es| - 1];
      EventsCounted(t, front, cell, seat);
      EventCounts(ObserveAll(Counts(t, NOTHING_OPEN), front), e, cell, seat);
      StableSort.FilterSnoc(front, e, Into(cell));
      StableSort.FilterSnoc(front, e, StartsOf(seat));
      assert es == front + [e];
    }
  }

  lemma {:induction false} RunningOnly(t: Tables, p: Pass, keys: seq<Key>, cell: Cell)
    requires cell.status != Running
    ensures Of(AddRunning(t, p, keys).status, cell) == Of(t.status, cell)
  {
    if keys != [] { RunningOnly(t, p, keys[..|keys| - 1], cell); }
  }

  /** Over a pass, each cell but those of running events gains one for each completion or retry with
      its stage and status, and each role gains one for each of its starts. */
  lemma StatusesAreCompletions(t: Tables, log: seq<Event>, cell: Cell, seat: Seat)
    requires cell.status != Running
    ensures Of(Accumulated(t, log).status, cell) == Of(t.status, cell) + |StableSort.Filter(log, Into(cell))|
    ensures Of(Accumulated(t, log).roles, seat) == Of(t.roles, seat) + |StableSort.Filter(log, StartsOf(seat))|
  {
    var es := StableSort.Sort(log, Earlier);
    EventsCounted(t, es, cell, seat);
    StableSort.SortCounts(log, Earlier, Into(cell));
    StableSort.SortCounts(log, Earlier, StartsOf(seat));
    var all := ObserveAll(Counts(t, NOTHING_OPEN), es);
    RunningOnly(all.tables, all.pass, all.pass.keys, cell);
    RunningAdded(all.tables, all.pass, all.pass.keys, cell.stage);
  }
}
