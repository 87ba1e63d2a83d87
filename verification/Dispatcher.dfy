/** The dispatcher: the task table is the truth, and the queue in front of the workers may be lost.
    The table is kept in creation order. */
module Dispatcher {
  import opened Options

  datatype Status = Pending | Running | Final(name: string)

  datatype Task = Task(status: Status, deleted: bool, queueId: Option<string>, ownerPod: Option<string>,
                       ownerPodIp: Option<string>, leaseExpiresAt: Option<int>, epoch: int, heartbeat: Option<int>)

  const STALE_HEARTBEAT_SECONDS := 600

  predicate Live(t: Task) {
    !t.deleted && !t.status.Final?
  }

  /** What the pump selects. */
  predicate Publishable(t: Task) {
    !t.deleted && t.status.Pending? && t.queueId.None?
  }

  /** A worker runs the task and has been heard of lately. */
  predicate Healthy(t: Task, active: set<string>, now: int) {
    && t.queueId.Some? && t.queueId.value in active
    && t.heartbeat.Some? && now - t.heartbeat.value <= STALE_HEARTBEAT_SECONDS
  }

  /** Back to pending, owned by nobody. */
  function Reset(t: Task): Task {
    t.(status := Pending, queueId := None, ownerPod := None, ownerPodIp := None, leaseExpiresAt := None, epoch := 0)
  }

  function StartupRow(t: Task): Task {
    if t.deleted then t
    else if t.status.Running? then Reset(t)
    else if t.status.Pending? && t.queueId.Some?
    then t.(queueId := None, ownerPod := None, leaseExpiresAt := None, epoch := 0)
    else t
  }

  function StaleRow(t: Task, active: set<string>, now: int): Task {
    if !t.deleted && t.status.Running? && !Healthy(t, active, now) then Reset(t) else t
  }

  function RecoverRow(t: Task, active: set<string>): Task {
    if !t.deleted && t.status.Pending? && t.queueId.Some? && t.queueId.value !in active then Reset(t) else t
  }

  /** `u` is `t` started over: pending, in no queue and owned by nobody. */
  predicate StartedOver(t: Task, u: Task) {
    && u.status.Pending? && u.queueId.None? && u.ownerPod.None? && u.leaseExpiresAt.None? && u.epoch == 0
    && u.deleted == t.deleted && u.heartbeat == t.heartbeat
  }

  /** A worker reports the task and was heard of in the last 600 seconds. */
  predicate Attended(t: Task, active: set<string>, now: int) {
    match (t.queueId, t.heartbeat)
    case (Some(id), Some(beat)) => id in active && now <= beat + 600
    case _ => false
  }

  /** A task that has been dealt with: settled, waiting for the pump, or in the hands of a worker. */
  predicate NotStuck(t: Task, active: set<string>, now: int) {
    || !Live(t) || Publishable(t)
    || (t.queueId.Some? && t.queueId.value in active && (t.status.Running? ==> Attended(t, active, now)))
  }

  /** The tasks the pump may publish, in creation order. */
  function Eligible(tasks: seq<Task>): seq<nat> {
    EligibleFrom(tasks, 0)
  }

  function EligibleFrom(tasks: seq<Task>, i: nat): seq<nat>
    requires i <= |tasks|
    decreases |tasks| - i
  {
    if i == |tasks| then []
    else (if Publishable(tasks[i]) then [i] else []) + EligibleFrom(tasks, i + 1)
  }

  function Min(a: nat, b: nat): nat {
    if a < b then a else b
  }

  lemma {:induction false} EligibleIs(tasks: seq<Task>, i: nat)
    requires i <= |tasks|
    ensures forall k :: 0 <= k < |EligibleFrom(tasks, i)| ==> i <= EligibleFrom(tasks, i)[k] < |tasks|
    ensures forall j, k :: 0 <= j < k < |EligibleFrom(tasks, i)| ==> EligibleFrom(tasks, i)[j] < EligibleFrom(tasks, i)[k]
    ensures forall r: nat :: r in EligibleFrom(tasks, i) <==> i <= r < |tasks| && Publishable(tasks[r])
    decreases |tasks| - i
  {
    if i < |tasks| { EligibleIs(tasks, i + 1); }
  }

  lemma {:induction false} FirstEligible(tasks: seq<Task>, i: nat)
    requires i <= |tasks| && EligibleFrom(tasks, i) != []
    ensures i <= EligibleFrom(tasks, i)[0] < |tasks| && Publishable(tasks[EligibleFrom(tasks, i)[0]])
    decreases |tasks| - i
  {
    if !Publishable(tasks[i]) { FirstEligible(tasks, i + 1); }
  }

  /** Publishing the first eligible task leaves the others eligible. */
  lemma {:induction false} EligibleAfter(tasks: seq<Task>, i: nat, id: string)
    requires i <= |tasks| && EligibleFrom(tasks, i) != []
    ensures var first := EligibleFrom(tasks, i)[0];
            && i <= first < |tasks|
            && EligibleFrom(tasks[first := tasks[first].(queueId := Some(id))], i) == EligibleFrom(tasks, i)[1..]
    decreases |tasks| - i
  {
    FirstEligible(tasks, i);
    var first := EligibleFrom(tasks, i)[0];
    var next := tasks[first := tasks[first].(queueId := Some(id))];
    if first == i {
      EligibleElsewhere(tasks, next, i + 1);
    } else {
      EligibleAfter(tasks, i + 1, id);
    }
  }

  lemma {:induction false} EligibleElsewhere(a: seq<Task>, b: seq<Task>, i: nat)
    requires i <= |a| == |b| && a[i..] == b[i..]
    ensures EligibleFrom(a, i) == EligibleFrom(b, i)
    decreases |a| - i
  {
    if i < |a| {
      assert a[i] == a[i..][0] && b[i] == b[i..][0];
      assert a[i + 1..] == a[i..][1..] && b[i + 1..] == b[i..][1..];
      EligibleElsewhere(a, b, i + 1);
    }
  }

  /** What an attempt to publish comes to; a message may go out although the row cannot be saved. */
  datatype Publish = Published(id: string) | NotSent | NotSaved

  /** The table after the first `n` eligible tasks got the queue ids `ids(0)`, `ids(1)`, ... */
  function PublishFirst(tasks: seq<Task>, n: nat, ids: nat -> string): (r: seq<Task>)
    requires n <= |Eligible(tasks)|
    ensures |r| == |tasks| && Eligible(r) == Eligible(tasks)[n..]
    decreases n
  {
    if n == 0 then tasks
    else
      var before := PublishFirst(tasks, n - 1, ids);
      EligibleAfter(before, 0, ids(n - 1));
      var first := Eligible(before)[0];
      assert Eligible(tasks)[n - 1..][1..] == Eligible(tasks)[n..];
      before[first := before[first].(queueId := Some(ids(n - 1)))]
  }

  /** The next task to publish. */
  lemma PublishNext(tasks: seq<Task>, n: nat, ids: nat -> string)
    requires n < |Eligible(tasks)|
    ensures var before, row := PublishFirst(tasks, n, ids), Eligible(tasks)[n];
            && row < |tasks| && Publishable(before[row]) && Eligible(before) != [] && Eligible(before)[0] == row
            && PublishFirst(tasks, n + 1, ids) == before[row := before[row].(queueId := Some(ids(n)))]
  {
    FirstEligible(PublishFirst(tasks, n, ids), 0);
  }

  /** `u` is `t`, or `t` with its queue id assigned. */
  predicate OnlyAssigned(t: Task, u: Task) {
    u == t || (Publishable(t) && u.queueId.Some? && u == t.(queueId := u.queueId))
  }

  /** Publishing changes nothing of a task but its queue id, and that only from none to some. */
  lemma {:induction false} PublishOnlyAssigns(tasks: seq<Task>, n: nat, ids: nat -> string, r: nat)
    requires n <= |Eligible(tasks)| && r < |tasks|
    ensures OnlyAssigned(tasks[r], PublishFirst(tasks, n, ids)[r])
    decreases n
  {
    if n > 0 {
      PublishOnlyAssigns(tasks, n - 1, ids, r);
      PublishNext(tasks, n - 1, ids);
    }
  }

  /** The k-th task gets the k-th id. */
  lemma {:induction false} PublishedId(tasks: seq<Task>, n: nat, ids: nat -> string, k: nat)
    requires k < n <= |Eligible(tasks)|
    ensures Eligible(tasks)[k] < |tasks|
    ensures PublishFirst(tasks, n, ids)[Eligible(tasks)[k]].queueId == Some(ids(k))
    decreases n
  {
    PublishNext(tasks, n - 1, ids);
    if k < n - 1 {
      PublishedId(tasks, n - 1, ids, k);
      EligibleIs(tasks, 0);
    }
  }

  /** `n` tasks have been published and saved, in creation order, and `messages` names them. */
  ghost predicate Pumped(before: seq<Task>, answers: nat -> Publish, n: nat, messages: seq<nat>, after: seq<Task>) {
    && n <= |Eligible(before)| && messages == Eligible(before)[..n]
    && after == PublishFirst(before, n, Ids(answers))
    && forall k :: 0 <= k < n ==> answers(k).Published?
  }

  lemma PumpedNext(before: seq<Task>, answers: nat -> Publish, n: nat, messages: seq<nat>, after: seq<Task>, row: nat)
    requires Pumped(before, answers, n, messages, after) && n < |Eligible(before)| && row == Eligible(before)[n]
    ensures Eligible(after) != [] && Eligible(after)[0] == row && row < |after|
    ensures answers(n).Published? ==>
      Pumped(before, answers, n + 1, messages + [row], after[row := after[row].(queueId := Some(answers(n).id))])
  {
    PublishNext(before, n, Ids(answers));
  }

  /** `k` pumps that all succeed; pump `i` takes its ids from `ids(i)`. */
  function Pumps(tasks: seq<Task>, batch: nat, k: nat, ids: nat -> (nat -> string)): (r: seq<Task>)
    ensures |r| == |tasks|
    decreases k
  {
    if k == 0 then tasks
    else
      var before := Pumps(tasks, batch, k - 1, ids);
      PublishFirst(before, Min(batch, |Eligible(before)|), ids(k - 1))
  }

  /** How many of `n` tasks `k` batches cover. */
  function Covered(batch: nat, k: nat, n: nat): (c: nat)
    ensures c <= n
  {
    if k == 0 then 0 else Min(Covered(batch, k - 1, n) + batch, n)
  }

  lemma {:induction false} CoveredIs(batch: nat, k: nat, n: nat)
    ensures Covered(batch, k, n) == if k * batch < n then k * batch else n
  {
    if k > 0 {
      CoveredIs(batch, k - 1, n);
      assert k * batch == (k - 1) * batch + batch;
    }
  }

  /** All but the first `c` of the tasks `e` are still to be published. */
  ghost predicate Left(tasks: seq<Task>, e: seq<nat>, c: nat) {
    c <= |e| && Eligible(tasks) == e[c..]
  }

  lemma OnePumpDrains(before: seq<Task>, e: seq<nat>, done: nat, batch: nat, ids: nat -> string)
    requires Left(before, e, done)
    ensures Left(PublishFirst(before, Min(batch, |Eligible(before)|), ids), e, Min(done + batch, |e|))
  {
    assert e[done..][Min(batch, |e| - done)..] == e[Min(done + batch, |e|)..];
  }

  /** Successful pumps publish in creation order, a batch at a time. */
  lemma {:induction false} PumpsDrain(tasks: seq<Task>, batch: nat, k: nat, ids: nat -> (nat -> string), e: seq<nat>)
    requires e == Eligible(tasks)
    ensures Left(Pumps(tasks, batch, k, ids), e, Covered(batch, k, |e|))
    decreases k
  {
    if k > 0 {
      PumpsDrain(tasks, batch, k - 1, ids, e);
      OnePumpDrains(Pumps(tasks, batch, k - 1, ids), e, Covered(batch, k - 1, |e|), batch, ids(k - 1));
    }
  }

  /** Every task of the table has been dealt with. */
  ghost predicate NoneStuck(tasks: seq<Task>, active: set<string>, now: int) {
    forall r :: 0 <= r < |tasks| ==> NotStuck(tasks[r], active, now)
  }

  /** A live task is with a worker, or its message is out. */
  predicate InFlight(t: Task) {
    Live(t) ==> t.queueId.Some?
  }

  /** After a scan, enough successful pumps put every live task in flight. */
  lemma {:induction false} ScanThenPumps(tasks: seq<Task>, active: set<string>, now: int, batch: nat, k: nat,
                                         ids: nat -> (nat -> string), r: nat)
    requires NoneStuck(tasks, active, now) && k * batch >= |Eligible(tasks)| && r < |tasks|
    ensures InFlight(Pumps(tasks, batch, k, ids)[r])
  {
    var after := Pumps(tasks, batch, k, ids);
    PumpsDrain(tasks, batch, k, ids, Eligible(tasks));
    CoveredIs(batch, k, |Eligible(tasks)|);
    EligibleIs(after, 0);
    assert r !in Eligible(after);
    PumpsOnlyAssign(tasks, batch, k, ids, r);
  }

  /** Pumps change nothing of a task but its queue id, and that only from none to some. */
  lemma {:induction false} PumpsOnlyAssign(tasks: seq<Task>, batch: nat, k: nat, ids: nat -> (nat -> string), r: nat)
    requires r < |tasks|
    ensures OnlyAssigned(tasks[r], Pumps(tasks, batch, k, ids)[r])
    decreases k
  {
    if k > 0 {
      PumpsOnlyAssign(tasks, batch, k - 1, ids, r);
      var before := Pumps(tasks, batch, k - 1, ids);
      PublishOnlyAssigns(before, Min(batch, |Eligible(before)|), ids(k - 1), r);
    }
  }

  /** A message that is still queued when the workers are asked is published a second time. */
  lemma QueuedTaskIsPublishedAgain(tasks: seq<Task>, n: nat, ids: nat -> string, active: set<string>, now: int, k: nat)
    requires k < n <= |Eligible(tasks)| && ids(k) !in active
    ensures Eligible(tasks)[k] < |tasks|
    ensures var t := PublishFirst(tasks, n, ids)[Eligible(tasks)[k]];
            t.queueId == Some(ids(k)) && Publishable(RecoverRow(StaleRow(t, active, now), active))
  {
    PublishedId(tasks, n, ids, k);
    PublishOnlyAssigns(tasks, n, ids, Eligible(tasks)[k]);
    EligibleIs(tasks, 0);
    assert Eligible(tasks)[k] in Eligible(tasks);
  }

  class Dispatcher {
    var tasks: seq<Task>
    /** The messages sent to the queue and the ids revoked, in order. */
    var sent: seq<nat>
    var revoked: seq<string>

    constructor (tasks: seq<Task>)
      ensures this.tasks == tasks && sent == [] && revoked == []
    {
      this.tasks, sent, revoked := tasks, [], [];
    }

    /** _startup_reset: every live task becomes publishable, and no other task changes. */
    method StartupReset()
      modifies this`tasks
      ensures |tasks| == old(|tasks|)
      ensures forall r :: 0 <= r < |tasks| ==> tasks[r] == StartupRow(old(tasks)[r])
      ensures forall r :: 0 <= r < |tasks| ==> (Live(old(tasks)[r]) <==> Publishable(tasks[r]))
      ensures forall r :: 0 <= r < |tasks| ==>
        if old(tasks)[r].deleted || old(tasks)[r].status.Final? || (old(tasks)[r].status.Pending? && old(tasks)[r].queueId.None?)
        then tasks[r] == old(tasks)[r]
        else StartedOver(old(tasks)[r], tasks[r]) &&
             tasks[r].ownerPodIp == if old(tasks)[r].status.Running? then None else old(tasks)[r].ownerPodIp
    {
      ghost var start := tasks;
      for i := 0 to |tasks|
        invariant |tasks| == |start|
        invariant forall r :: 0 <= r < |start| ==>
          tasks[r] == if r < i && !start[r].deleted && start[r].status.Running? then Reset(start[r]) else start[r]
      {
        if tasks[i].status.Running? && !tasks[i].deleted {
          tasks := tasks[i := Reset(tasks[i])];
        }
      }
      ghost var middle := tasks;
      for i := 0 to |tasks|
        invariant |tasks| == |start|
        invariant forall r :: 0 <= r < |start| ==> tasks[r] == if r < i then StartupRow(start[r]) else middle[r]
      {
        if tasks[i].status.Pending? && !tasks[i].deleted && tasks[i].queueId.Some? {
          tasks := tasks[i := tasks[i].(queueId := None, ownerPod := None, leaseExpiresAt := None, epoch := 0)];
        }
      }
    }

    /** _pump_once: the first tasks of the batch are published, up to the first failure. */
    method PumpOnce(batch: nat, answers: nat -> Publish)
      returns (published: nat, ghost rows: seq<nat>, ghost messages: seq<nat>)
      modifies this`tasks, this`sent
      ensures rows == Eligible(old(tasks))[..Min(batch, |Eligible(old(tasks))|)]
      ensures Pumped(old(tasks), answers, published, messages, tasks) && published <= |rows|
      ensures published == |rows| ==> sent == old(sent) + messages
      ensures published < |rows| ==>
        !answers(published).Published? &&
        sent == old(sent) + messages + if answers(published).NotSaved? then [rows[published]] else []
    {
      var selected := SelectEligible(batch);
      rows := selected;
      published, messages := PublishRows(selected, answers);
    }

    method PublishRows(rows: seq<nat>, answers: nat -> Publish) returns (published: nat, ghost messages: seq<nat>)
      requires rows <= Eligible(tasks)
      modifies this`tasks, this`sent
      ensures Pumped(old(tasks), answers, published, messages, tasks) && published <= |rows|
      ensures published == |rows| ==> sent == old(sent) + messages
      ensures published < |rows| ==>
        !answers(published).Published? &&
        sent == old(sent) + messages + if answers(published).NotSaved? then [rows[published]] else []
    {
      ghost var start := tasks;
      published, messages := 0, [];
      while published < |rows|
        invariant published <= |rows|
        invariant Pumped(start, answers, published, messages, tasks) && sent == old(sent) + messages
      {
        var row := rows[published];
        PumpedNext(start, answers, published, messages, tasks, row);
        var ok := PublishOne(row, answers(published));
        if !ok { return; }
        published, messages := published + 1, messages + [row];
      }
    }

    /** One turn of the pump: send, then save the queue id. */
    method PublishOne(row: nat, answer: Publish) returns (ok: bool)
      requires Eligible(tasks) != [] && row == Eligible(tasks)[0]
      modifies this`tasks, this`sent
      ensures ok == answer.Published? && row < |old(tasks)|
      ensures sent == old(sent) + if answer.NotSent? then [] else [row]
      ensures tasks == if ok then old(tasks)[row := old(tasks)[row].(queueId := Some(answer.id))] else old(tasks)
    {
      EligibleIs(tasks, 0);
      assert row in Eligible(tasks);
      if answer.NotSent? { return false; }
      sent := sent + [row];
      if answer.NotSaved? { return false; }
      tasks := tasks[row := tasks[row].(queueId := Some(answer.id))];
      return true;
    }

    method SelectEligible(limit: nat) returns (rows: seq<nat>)
      ensures rows == Eligible(tasks)[..Min(limit, |Eligible(tasks)|)]
    {
      rows := [];
      var i := 0;
      while i < |tasks| && |rows| < limit
        invariant i <= |tasks| && |rows| <= limit
        invariant Eligible(tasks) == rows + EligibleFrom(tasks, i)
      {
        if Publishable(tasks[i]) { rows := rows + [i]; }
        i := i + 1;
      }
    }

    /** _stale_once with its second part, for the queue ids that the workers report as active. */
    method StaleOnce(active: set<string>, now: int)
      modifies this`tasks, this`revoked
      ensures |tasks| == old(|tasks|) && NoneStuck(tasks, active, now)
      ensures forall r :: 0 <= r < |tasks| ==>
        tasks[r] == RecoverRow(StaleRow(old(tasks)[r], active, now), active)
      ensures revoked == old(revoked) + Revoked(old(tasks), active, now)
      ensures forall r :: 0 <= r < |tasks| ==>
        (tasks[r] == old(tasks)[r] <==> !Live(old(tasks)[r]) || NoReasonToTouch(old(tasks)[r], active, now))
      ensures forall r :: 0 <= r < |tasks| && tasks[r] != old(tasks)[r] ==>
        StartedOver(old(tasks)[r], tasks[r]) && tasks[r].ownerPodIp.None?
    {
      ghost var start := tasks;
      for i := 0 to |tasks|
        invariant |tasks| == |start|
        invariant forall r :: 0 <= r < |start| ==> tasks[r] == if r < i then StaleRow(start[r], active, now) else start[r]
        invariant revoked == old(revoked) + Revoked(start[..i], active, now)
      {
        assert start[..i + 1][..i] == start[..i];
        var t := tasks[i];
        if t.status.Running? && !t.deleted {
          var inActive := t.queueId.Some? && t.queueId.value in active;
          var stale := t.heartbeat.None? || now - t.heartbeat.value > STALE_HEARTBEAT_SECONDS;
          if !(inActive && !stale) {
            if t.queueId.Some? && t.queueId.value != "" { revoked := revoked + [t.queueId.value]; }
            tasks := tasks[i := Reset(t)];
          }
        }
      }
      assert start[..|start|] == start;
      RecoverPending(active);
    }

    /** _recover_pending_stale_cid. */
    method RecoverPending(active: set<string>)
      modifies this`tasks
      ensures |tasks| == old(|tasks|)
      ensures forall r :: 0 <= r < |tasks| ==> tasks[r] == RecoverRow(old(tasks)[r], active)
      ensures forall r :: 0 <= r < |tasks| ==>
        var t := old(tasks)[r];
        if !t.deleted && t.status.Pending? && t.queueId.Some? && t.queueId.value !in active
        then StartedOver(t, tasks[r]) && tasks[r].ownerPodIp.None? else tasks[r] == t
    {
      ghost var start := tasks;
      for i := 0 to |tasks|
        invariant |tasks| == |start|
        invariant forall r :: 0 <= r < |start| ==> tasks[r] == if r < i then RecoverRow(start[r], active) else start[r]
      {
        var t := tasks[i];
        if t.status.Pending? && !t.deleted && t.queueId.Some? {
          if t.queueId.value !in active {
            tasks := tasks[i := t.(queueId := None, ownerPod := None, ownerPodIp := None, leaseExpiresAt := None, epoch := 0)];
          }
        }
      }
    }
  }

  /** The queue ids whose workers a scan kills: those of the running tasks that it resets. */
  function Revoked(tasks: seq<Task>, active: set<string>, now: int): seq<string> {
    if tasks == [] then []
    else
      var t := tasks[|tasks| - 1];
      Revoked(tasks[..|tasks| - 1], active, now) +
      (if StaleRow(t, active, now) != t && t.queueId.Some? && t.queueId.value != "" then [t.queueId.value] else [])
  }

  /** They are exactly the ids, other than empty ones, of the live running tasks that nobody attends. */
  lemma {:induction false} RevokedAre(tasks: seq<Task>, active: set<string>, now: int, id: string)
    ensures id in Revoked(tasks, active, now) <==>
      exists r :: 0 <= r < |tasks| && tasks[r].status.Running? && !tasks[r].deleted
                  && !Attended(tasks[r], active, now) && tasks[r].queueId == Some(id) && id != ""
  {
    if tasks != [] {
      var n := |tasks| - 1;
      RevokedAre(tasks[..n], active, now, id);
      assert tasks == tasks[..n] + [tasks[n]];
    }
  }

  /** What a scan has no reason to touch. */
  predicate NoReasonToTouch(t: Task, active: set<string>, now: int) {
    || (t.status.Running? && Attended(t, active, now))
    || (t.status.Pending? && (t.queueId.None? || t.queueId.value in active))
  }

  function Ids(answers: nat -> Publish): nat -> string {
    (k: nat) => if answers(k).Published? then answers(k).id else ""
  }

  /** When the workers cannot be asked, the set of active ids is empty, and every live task starts over. */
  lemma NoAnswerRestartsAll(tasks: seq<Task>, now: int, r: nat)
    requires r < |tasks| && Live(tasks[r])
    ensures Publishable(RecoverRow(StaleRow(tasks[r], {}, now), {}))
  {
  }
}
