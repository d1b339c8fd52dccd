/** The outbound queue of one node and the tasks that work on it.

    A task works on the copy of its entry it was spawned with.  The immediate task
    of a message and any number of worker tasks for the same entry may be alive at
    once, and what they write carries no guard on the entry's status. */
module Outbox {
  import opened Schema
  import opened ReceivePipeline

  const MAX_ATTEMPTS: nat := 10
  const BATCH: nat := 100
  const POLL_INTERVAL: int := 10 * SECOND

  /** The JSON column: a request body, or something that does not decode as one. */
  datatype Json = Request(payload: Payload) | Malformed
  datatype Status = Pending | Delivered | Failed
  datatype Entry = Entry(
    target: NodeId, logical: string, body: Json, attempts: nat,
    nextAttempt: Time, lastAttempt: Option<Time>, status: Status)

  datatype Task =
    | Immediate(entry: Id, target: NodeId, body: Json)
    | Worker(entry: Id, target: NodeId, body: Json, seen: nat, fetched: Time)

  datatype Queue = Queue(now: Time, lastPoll: Time, outbox: map<Id, Entry>, tasks: map<Id, Task>)

  datatype Event =
    | Tick(to: Time)
    | Enqueue(id: Id, task: Id, target: NodeId, payload: Payload)
    | Poll(spawn: map<Id, Id>)   // task identifier to entry identifier
    | Succeed(task: Id)
    | Fail(task: Id)
    | Undecodable(task: Id)
    | Vanish(task: Id)

  // ----- Repository functions on one entry -----

  function Pow2(n: nat): nat {
    if n == 0 then 1 else 2 * Pow2(n - 1)
  }

  /** Seconds until the next attempt. */
  function Backoff(attempt: nat): nat {
    var shift := if attempt < 12 then attempt else 12;
    var secs := 10 * Pow2(shift);
    if secs < 3600 then secs else 3600
  }

  function NewEntry(target: NodeId, payload: Payload, now: Time): Entry {
    Entry(target, payload.logical, Request(payload), 0, now, None, Pending)
  }

  function MarkedDelivered(e: Entry, now: Time): Entry {
    e.(status := Delivered, lastAttempt := Some(now))
  }

  function FailureRecorded(e: Entry, attempt: nat, max: nat, now: Time): Entry {
    if attempt >= max then
      e.(status := Failed, lastAttempt := Some(now), attempts := attempt)
    else
      e.(attempts := attempt, lastAttempt := Some(now), nextAttempt := now + Backoff(attempt) * SECOND)
  }

  /** An UPDATE by primary key touches nothing when the row is missing. */
  function Update(outbox: map<Id, Entry>, id: Id, e: Entry): map<Id, Entry> {
    if id in outbox then outbox[id := e] else outbox
  }

  // ----- Fetching -----

  predicate Due(outbox: map<Id, Entry>, now: Time, id: Id) {
    id in outbox && outbox[id].status == Pending && outbox[id].nextAttempt <= now
  }

  /** A possible answer of `ORDER BY next_attempt ASC LIMIT 100`. */
  ghost predicate IsDueBatch(outbox: map<Id, Entry>, now: Time, batch: set<Id>) {
    && (forall x :: x in batch ==> Due(outbox, now, x))
    && |batch| <= BATCH
    && (|batch| == BATCH || forall y :: Due(outbox, now, y) ==> y in batch)
    && (forall x, y :: x in batch && Due(outbox, now, y) && y !in batch ==>
      outbox[x].nextAttempt <= outbox[y].nextAttempt)
  }

  /** The entries that the tasks of a poll are spawned for. */
  ghost function Taken(spawn: map<Id, Id>): set<Id> {
    set t | t in spawn :: spawn[t]
  }

  ghost predicate Injective(spawn: map<Id, Id>) {
    forall s, t :: s in spawn && t in spawn && spawn[s] == spawn[t] ==> s == t
  }

  function Snapshot(q: Queue, id: Id): Task
    requires id in q.outbox
  {
    Worker(id, q.outbox[id].target, q.outbox[id].body, q.outbox[id].attempts, q.now)
  }

  // ----- Events -----

  ghost predicate Enabled(q: Queue, e: Event) {
    match e
    case Tick(to) => q.now <= to
    case Enqueue(id, task, _, _) => id !in q.outbox && task !in q.tasks
    case Poll(spawn) => IsDueBatch(q.outbox, q.now, Taken(spawn)) && Injective(spawn) && spawn.Keys !! q.tasks.Keys
    case Succeed(t) => t in q.tasks && q.tasks[t].body.Request?
    case Fail(t) => t in q.tasks && q.tasks[t].body.Request?
    case Undecodable(t) => t in q.tasks && q.tasks[t].Worker? && q.tasks[t].body.Malformed?
    case Vanish(t) => t in q.tasks
  }

  /** What the task writes when its attempt failed, was answered, or could not start. */
  ghost function Outcome(q: Queue, e: Event): map<Id, Entry>
    requires Enabled(q, e) && (e.Succeed? || e.Fail? || e.Undecodable? || e.Vanish?)
  {
    var task := q.tasks[e.task];
    if task.entry !in q.outbox || e.Vanish? || (e.Fail? && task.Immediate?) then q.outbox
    else
      var entry := q.outbox[task.entry];
      q.outbox[task.entry :=
        if e.Succeed? then MarkedDelivered(entry, q.now)
        else if e.Fail? then FailureRecorded(entry, task.seen + 1, MAX_ATTEMPTS, q.now)
        else FailureRecorded(entry, MAX_ATTEMPTS, MAX_ATTEMPTS, q.now)]
  }

  ghost function Next(q: Queue, e: Event): Queue
    requires Enabled(q, e)
  {
    match e
    case Tick(to) => q.(now := to)
    case Enqueue(id, task, target, payload) =>
      q.(outbox := q.outbox[id := NewEntry(target, payload, q.now)],
         tasks := q.tasks[task := Immediate(id, target, Request(payload))])
    case Poll(spawn) =>
      q.(lastPoll := q.now,
         tasks := q.tasks + map t | t in spawn && spawn[t] in q.outbox :: Snapshot(q, spawn[t]))
    case _ => q.(outbox := Outcome(q, e), tasks := q.tasks - {e.task})
  }

  /** A message that was just queued is pending, has no attempts, and is due at once. */
  lemma EnqueuedIsDue(q: Queue, e: Event)
    requires Enabled(q, e) && e.Enqueue?
    ensures var q' := Next(q, e);
      && e.id in q'.outbox && q'.outbox[e.id] ==
        Entry(e.target, e.payload.logical, Request(e.payload), 0, q.now, None, Pending)
      && Due(q'.outbox, q'.now, e.id) && q'.now == q.now && q'.outbox - {e.id} == q.outbox
      && q'.tasks == q.tasks[e.task := Immediate(e.id, e.target, Request(e.payload))]
  {
  }

  ghost predicate Allowed(q: Queue, es: seq<Event>)
    decreases |es|
  {
    es == [] || (Enabled(q, es[0]) && Allowed(Next(q, es[0]), es[1..]))
  }

  ghost function After(q: Queue, es: seq<Event>): Queue
    requires Allowed(q, es)
    decreases |es|
  {
    if es == [] then q else After(Next(q, es[0]), es[1..])
  }

  // ----- Every interleaving -----

  ghost predicate EntryOk(e: Entry) {
    && e.attempts <= 10
    && (e.status == Pending ==> e.attempts < 10)
  }

  ghost predicate TaskOk(outbox: map<Id, Entry>, t: Task) {
    && t.entry in outbox && outbox[t.entry].target == t.target && outbox[t.entry].body == t.body
    && (t.Worker? ==> t.seen < 10)
  }

  /** The counter stays in 0..10, is at most 9 while an entry is pending, and every
      live copy describes the same message to the same node. */
  ghost predicate OverlapSafe(q: Queue) {
    && (forall id :: id in q.outbox ==> EntryOk(q.outbox[id]))
    && (forall t :: t in q.tasks ==> TaskOk(q.outbox, q.tasks[t]))
  }

  /** Entries are never dropped or redirected, and never become pending again. */
  ghost predicate Progresses(a: map<Id, Entry>, b: map<Id, Entry>) {
    forall id :: id in a ==>
      && id in b && b[id].target == a[id].target && b[id].body == a[id].body
      && (b[id].status == Pending ==> a[id].status == Pending)
  }

  lemma NextProgresses(q: Queue, e: Event)
    requires Enabled(q, e)
    ensures Progresses(q.outbox, Next(q, e).outbox)
  {
  }

  lemma NextOverlapSafe(q: Queue, e: Event)
    requires OverlapSafe(q) && Enabled(q, e)
    ensures OverlapSafe(Next(q, e))
  {
  }

  lemma {:induction false} RunOverlapSafe(q: Queue, es: seq<Event>)
    requires OverlapSafe(q) && Allowed(q, es)
    ensures OverlapSafe(After(q, es)) && Progresses(q.outbox, After(q, es).outbox)
    decreases |es|
  {
    if es != [] {
      NextOverlapSafe(q, es[0]);
      NextProgresses(q, es[0]);
      RunOverlapSafe(Next(q, es[0]), es[1..]);
    }
  }

  /** An entry that is not pending is never fetched again, whatever stale tasks do. */
  lemma {:induction false} NeverFetchedAgain(q: Queue, es: seq<Event>, id: Id, i: nat)
    requires Allowed(q, es) && id in q.outbox && q.outbox[id].status != Pending
    requires i < |es| && es[i].Poll?
    ensures id !in Taken(es[i].spawn)
    decreases |es|
  {
    if i > 0 {
      NextProgresses(q, es[0]);
      NeverFetchedAgain(Next(q, es[0]), es[1..], id, i - 1);
    }
  }

  // ----- 'delivered' is not final under overlap -----

  /** The event is a stale task giving up on `id` for good. */
  ghost predicate GivesUp(q: Queue, e: Event, id: Id) {
    && (e.Fail? || e.Undecodable?) && e.task in q.tasks && q.tasks[e.task].Worker? && q.tasks[e.task].entry == id
    && (e.Undecodable? || q.tasks[e.task].seen + 1 >= 10)
  }

  /** A delivered entry stays delivered unless a task that saw nine failures fails too. */
  lemma DeliveredStaysIff(q: Queue, e: Event, id: Id)
    requires Enabled(q, e) && id in q.outbox && q.outbox[id].status == Delivered
    ensures Next(q, e).outbox[id].status == Delivered <==> !GivesUp(q, e, id)
  {
  }

  /** A live task would give up on `id` for good if its attempt failed. */
  ghost predicate MayGiveUp(q: Queue, t: Id, id: Id) {
    && t in q.tasks && q.tasks[t].Worker? && q.tasks[t].entry == id
    && (q.tasks[t].body.Malformed? || q.tasks[t].seen + 1 >= 10)
  }

  ghost predicate IsDelivered(q: Queue, id: Id) {
    id in q.outbox && q.outbox[id].status == Delivered
  }

  lemma NoneMayGiveUpNext(q: Queue, e: Event, id: Id)
    requires Enabled(q, e) && IsDelivered(q, id) && forall t :: !MayGiveUp(q, t, id)
    ensures IsDelivered(Next(q, e), id) && forall t :: !MayGiveUp(Next(q, e), t, id)
  {
    if e.Fail? || e.Undecodable? {
      assert !MayGiveUp(q, e.task, id);
    }
    var q' := Next(q, e);
    forall t ensures !MayGiveUp(q', t, id) {
      assert !MayGiveUp(q, t, id);
      if e.Poll? && t in e.spawn {
        assert e.spawn[t] in Taken(e.spawn);
      }
    }
  }

  lemma {:induction false} StaysDelivered(q: Queue, es: seq<Event>, id: Id)
    requires Allowed(q, es) && IsDelivered(q, id) && forall t :: !MayGiveUp(q, t, id)
    ensures IsDelivered(After(q, es), id)
    decreases |es|
  {
    if es != [] {
      NoneMayGiveUpNext(q, es[0], id);
      StaysDelivered(Next(q, es[0]), es[1..], id);
    }
  }

  lemma GivesUpAtOnce(q: Queue, t: Id, id: Id) returns (es: seq<Event>)
    requires IsDelivered(q, id) && MayGiveUp(q, t, id)
    ensures Allowed(q, es) && !IsDelivered(After(q, es), id)
  {
    var e := if q.tasks[t].body.Malformed? then Undecodable(t) else Fail(t);
    es := [e];
    assert es[1..] == [];
    assert Allowed(Next(q, e), []);
  }

  /** A delivered entry stays delivered in every run from here exactly when no live task
      for it is at its last attempt or holds a body that does not decode. */
  lemma DeliveredIsFinalIff(q: Queue, id: Id)
    requires IsDelivered(q, id)
    ensures (forall es :: Allowed(q, es) ==> IsDelivered(After(q, es), id)) <==> !exists t :: MayGiveUp(q, t, id)
  {
    if t :| MayGiveUp(q, t, id) {
      var es := GivesUpAtOnce(q, t, id);
    } else {
      forall es | Allowed(q, es) ensures IsDelivered(After(q, es), id) {
        StaysDelivered(q, es, id);
      }
    }
  }

  /** Whatever the reason of a failed attempt, a pending entry is given up exactly when
      the attempt's task had seen nine failures, or its body does not decode. */
  lemma PendingFailsIff(q: Queue, e: Event, id: Id)
    requires Enabled(q, e) && id in q.outbox && q.outbox[id].status == Pending
    ensures Next(q, e).outbox[id].status == Failed <==> GivesUp(q, e, id)
  {
  }

  ghost function Empty(): Queue {
    Queue(0, 0, map[], map[])
  }

  lemma {:induction false} AllowedAppend(q: Queue, es: seq<Event>, fs: seq<Event>)
    requires Allowed(q, es) && Allowed(After(q, es), fs)
    ensures Allowed(q, es + fs) && After(q, es + fs) == After(After(q, es), fs)
    decreases |es|
  {
    if es == [] {
      assert es + fs == fs;
    } else {
      assert (es + fs)[0] == es[0] && (es + fs)[1..] == es[1..] + fs;
      AllowedAppend(Next(q, es[0]), es[1..], fs);
    }
  }

  /** One entry, waiting after `k` recorded failures, and nobody working on it. */
  ghost predicate Waiting(q: Queue, k: nat) {
    && q.outbox.Keys == {0} && q.tasks == map[]
    && q.outbox[0].status == Pending && q.outbox[0].attempts == k && q.outbox[0].body.Request?
  }

  function DueTime(q: Queue): Time
    requires 0 in q.outbox
  {
    if q.now < q.outbox[0].nextAttempt then q.outbox[0].nextAttempt else q.now
  }

  lemma OnlyEntryDue(q: Queue, task: Id)
    requires q.outbox.Keys == {0} && Due(q.outbox, q.now, 0) && task !in q.tasks
    ensures Enabled(q, Poll(map[task := 0]))
    ensures Next(q, Poll(map[task := 0])).tasks == q.tasks[task := Snapshot(q, 0)]
  {
    var spawn := map[task := 0];
    assert spawn[task] == 0 && Taken(spawn) == {0};
  }

  lemma AllowedSnoc(q: Queue, es: seq<Event>, e: Event)
    requires Allowed(q, es) && Enabled(After(q, es), e)
    ensures Allowed(q, es + [e]) && After(q, es + [e]) == Next(After(q, es), e)
  {
    var q' := After(q, es);
    assert [e][1..] == [];
    assert Allowed(Next(q', e), []);
    assert Allowed(q', [e]) && After(q', [e]) == Next(q', e);
    AllowedAppend(q, es, [e]);
  }

  /** Waiting, and the time has come: the queue just before a fetch. */
  lemma WaitUntilDue(q: Queue, k: nat)
    requires Waiting(q, k)
    ensures var q' := Next(q, Tick(DueTime(q))); Waiting(q', k) && Due(q'.outbox, q'.now, 0)
  {
  }

  lemma FailureRecordedOnce(q: Queue, k: nat)
    requires Waiting(q, k) && Due(q.outbox, q.now, 0) && k + 1 < 10
    ensures Enabled(q, Poll(map[0 := 0]))
    ensures var q' := Next(q, Poll(map[0 := 0])); Enabled(q', Fail(0)) && Waiting(Next(q', Fail(0)), k + 1)
  {
    OnlyEntryDue(q, 0);
    var q' := Next(q, Poll(map[0 := 0]));
    assert q'.tasks == map[0 := Snapshot(q, 0)];
    assert q'.tasks - {0} == map[];
  }

  lemma {:induction false} ReachWaiting(k: nat) returns (es: seq<Event>)
    requires k < 10
    ensures Allowed(Empty(), es) && Waiting(After(Empty(), es), k)
  {
    if k == 0 {
      var first := Enqueue(0, 0, "node-b", Payload("m", "a@node-a", 0, "", "b", []));
      AllowedSnoc(Empty(), [], first);
      AllowedSnoc(Empty(), [] + [first], Fail(0));
      es := [] + [first] + [Fail(0)];
    } else {
      es := ReachWaiting(k - 1);
      var q := After(Empty(), es);
      WaitUntilDue(q, k - 1);
      AllowedSnoc(Empty(), es, Tick(DueTime(q)));
      es := es + [Tick(DueTime(q))];
      FailureRecordedOnce(After(Empty(), es), k - 1);
      AllowedSnoc(Empty(), es, Poll(map[0 := 0]));
      es := es + [Poll(map[0 := 0])];
      AllowedSnoc(Empty(), es, Fail(0));
      es := es + [Fail(0)];
    }
  }

  /** Two worker tasks for the same entry, both of which saw nine failures. */
  ghost predicate TwoWorkers(q: Queue) {
    && 0 in q.outbox && 0 in q.tasks && 1 in q.tasks
    && forall t :: t in q.tasks ==>
      q.tasks[t].Worker? && q.tasks[t].entry == 0 && q.tasks[t].body.Request? && q.tasks[t].seen == 9
  }

  /** Two polls, an interval apart, while the attempt of the first is still under way. */
  lemma SecondFetch(q: Queue)
    requires Waiting(q, 9) && Due(q.outbox, q.now, 0)
    ensures Enabled(q, Poll(map[0 := 0]))
    ensures var q1 := Next(Next(q, Poll(map[0 := 0])), Tick(q.now + POLL_INTERVAL));
      Enabled(q1, Poll(map[1 := 0])) && TwoWorkers(Next(q1, Poll(map[1 := 0])))
  {
    OnlyEntryDue(q, 0);
    OnlyEntryDue(Next(Next(q, Poll(map[0 := 0])), Tick(q.now + POLL_INTERVAL)), 1);
  }

  lemma StaleFailure(q: Queue)
    requires TwoWorkers(q)
    ensures Enabled(q, Succeed(1))
    ensures var q' := Next(q, Succeed(1));
      && q'.outbox[0].status == Delivered && Enabled(q', Fail(0))
      && Next(q', Fail(0)).outbox[0].status == Failed
  {
  }

  lemma ReachTwoWorkers() returns (es: seq<Event>)
    ensures Allowed(Empty(), es) && TwoWorkers(After(Empty(), es))
  {
    es := ReachWaiting(9);
    var q := After(Empty(), es);
    WaitUntilDue(q, 9);
    AllowedSnoc(Empty(), es, Tick(DueTime(q)));
    es := es + [Tick(DueTime(q))];
    q := After(Empty(), es);
    SecondFetch(q);
    AllowedSnoc(Empty(), es, Poll(map[0 := 0]));
    es := es + [Poll(map[0 := 0])];
    AllowedSnoc(Empty(), es, Tick(q.now + POLL_INTERVAL));
    es := es + [Tick(q.now + POLL_INTERVAL)];
    AllowedSnoc(Empty(), es, Poll(map[1 := 0]));
    es := es + [Poll(map[1 := 0])];
  }

  /** Two overlapping attempts, fetched one poll interval apart, can turn 'delivered' into
      'failed'. */
  lemma DeliveredCanFail() returns (es: seq<Event>, last: Event)
    ensures Allowed(Empty(), es) && Enabled(After(Empty(), es), last)
    ensures 0 in After(Empty(), es).outbox && After(Empty(), es).outbox[0].status == Delivered
    ensures Next(After(Empty(), es), last).outbox[0].status == Failed
  {
    es := ReachTwoWorkers();
    StaleFailure(After(Empty(), es));
    AllowedSnoc(Empty(), es, Succeed(1));
    es, last := es + [Succeed(1)], Fail(0);
  }
}
