/** Runs in which an entry is fetched only while no attempt for it is alive. */
module OutboxSerial {
  import opened Schema
  import opened Outbox

  ghost predicate Idle(q: Queue, id: Id) {
    forall t :: t in q.tasks ==> q.tasks[t].entry != id
  }

  /** The event does not start an attempt for `id` while another one is under way. */
  ghost predicate SerialFor(q: Queue, e: Event, id: Id) {
    e.Poll? && id in Taken(e.spawn) ==> Idle(q, id)
  }

  ghost predicate SerialRunFor(q: Queue, es: seq<Event>, id: Id)
    requires Allowed(q, es)
    decreases |es|
  {
    es == [] || (SerialFor(q, es[0], id) && SerialRunFor(Next(q, es[0]), es[1..], id))
  }

  ghost predicate Serial(q: Queue, e: Event) {
    forall id :: SerialFor(q, e, id)
  }

  ghost predicate SerialRun(q: Queue, es: seq<Event>)
    requires Allowed(q, es)
    decreases |es|
  {
    es == [] || (Serial(q, es[0]) && SerialRun(Next(q, es[0]), es[1..]))
  }

  /** A live copy agrees with the row it was taken from. */
  ghost predicate Current(q: Queue, t: Task) {
    && t.entry in q.outbox && q.outbox[t.entry].status == Pending
    && match t
       case Immediate(_, _, _) => q.outbox[t.entry].attempts == 0
       case Worker(_, _, _, seen, fetched) =>
         q.outbox[t.entry].attempts == seen && q.outbox[t.entry].nextAttempt <= fetched <= q.now
  }

  /** What serial attempts for `id` keep, whatever happens to other entries. */
  ghost predicate SafeFor(q: Queue, id: Id) {
    && OverlapSafe(q)
    && (forall t :: t in q.tasks && q.tasks[t].entry == id ==> Current(q, q.tasks[t]))
    && (forall s, t :: s in q.tasks && t in q.tasks && q.tasks[s].entry == id && q.tasks[t].entry == id ==> s == t)
    && (id in q.outbox && q.outbox[id].status == Failed ==> q.outbox[id].attempts == 10)
  }

  ghost predicate SerialSafe(q: Queue) {
    OverlapSafe(q) && forall id :: SafeFor(q, id)
  }

  /** Under serial attempts the outcome of an entry is final. */
  ghost predicate FinalFor(a: map<Id, Entry>, b: map<Id, Entry>, id: Id) {
    id in a && a[id].status != Pending ==> id in b && b[id] == a[id]
  }

  ghost predicate Final(a: map<Id, Entry>, b: map<Id, Entry>) {
    forall id :: FinalFor(a, b, id)
  }

  lemma PollKeepsSafe(q: Queue, e: Event, id: Id)
    requires SafeFor(q, id) && Enabled(q, e) && SerialFor(q, e, id) && e.Poll?
    ensures SafeFor(Next(q, e), id) && FinalFor(q.outbox, Next(q, e).outbox, id)
  {
    NextOverlapSafe(q, e);
    var q' := Next(q, e);
    forall s, t | s in q'.tasks && t in q'.tasks && q'.tasks[s].entry == id && q'.tasks[t].entry == id ensures s == t {
      assert s in e.spawn ==> e.spawn[s] in Taken(e.spawn);
      assert t in e.spawn ==> e.spawn[t] in Taken(e.spawn);
    }
  }

  lemma NextKeepsSafe(q: Queue, e: Event, id: Id)
    requires SafeFor(q, id) && Enabled(q, e) && SerialFor(q, e, id)
    ensures SafeFor(Next(q, e), id) && FinalFor(q.outbox, Next(q, e).outbox, id)
  {
    if e.Poll? {
      PollKeepsSafe(q, e, id);
    } else {
      NextOverlapSafe(q, e);
    }
  }

  lemma {:induction false} SerialRunSafeFor(q: Queue, es: seq<Event>, id: Id)
    requires SafeFor(q, id) && Allowed(q, es) && SerialRunFor(q, es, id)
    ensures SafeFor(After(q, es), id) && FinalFor(q.outbox, After(q, es).outbox, id)
    decreases |es|
  {
    if es != [] {
      NextKeepsSafe(q, es[0], id);
      SerialRunSafeFor(Next(q, es[0]), es[1..], id);
    }
  }

  lemma NextKeepsSerial(q: Queue, e: Event)
    requires SerialSafe(q) && Enabled(q, e) && Serial(q, e)
    ensures SerialSafe(Next(q, e))
  {
    NextOverlapSafe(q, e);
    forall id ensures SafeFor(Next(q, e), id) {
      assert SafeFor(q, id) && SerialFor(q, e, id);
      NextKeepsSafe(q, e, id);
    }
  }

  lemma {:induction false} SerialForAll(q: Queue, es: seq<Event>, id: Id)
    requires Allowed(q, es) && SerialRun(q, es)
    ensures SerialRunFor(q, es, id)
    decreases |es|
  {
    if es != [] {
      assert SerialFor(q, es[0], id);
      SerialForAll(Next(q, es[0]), es[1..], id);
    }
  }

  lemma SerialRunSafe(q: Queue, es: seq<Event>)
    requires SerialSafe(q) && Allowed(q, es) && SerialRun(q, es)
    ensures SerialSafe(After(q, es)) && Final(q.outbox, After(q, es).outbox)
  {
    RunOverlapSafe(q, es);
    forall id ensures SafeFor(After(q, es), id) && FinalFor(q.outbox, After(q, es).outbox, id) {
      assert SafeFor(q, id);
      SerialForAll(q, es, id);
      SerialRunSafeFor(q, es, id);
    }
  }

  // ----- Retries end -----

  /** Attempts an entry still has. */
  function Left(e: Entry): nat {
    if e.status == Pending && e.attempts <= 10 then 10 - e.attempts else 0
  }

  ghost function Potential(outbox: map<Id, Entry>): nat
    decreases |outbox|
  {
    if exists id :: id in outbox then
      var id :| id in outbox;
      Left(outbox[id]) + Potential(outbox - {id})
    else 0
  }

  lemma {:induction false} PotentialWithout(outbox: map<Id, Entry>, id: Id)
    requires id in outbox
    ensures Potential(outbox) == Left(outbox[id]) + Potential(outbox - {id})
    decreases |outbox|
  {
    var j :| j in outbox && Potential(outbox) == Left(outbox[j]) + Potential(outbox - {j});
    if j != id {
      PotentialWithout(outbox - {j}, id);
      PotentialWithout(outbox - {id}, j);
      assert outbox - {j} - {id} == outbox - {id} - {j};
    }
  }

  lemma PotentialUpdate(outbox: map<Id, Entry>, id: Id, e: Entry)
    requires id in outbox
    ensures Potential(outbox[id := e]) + Left(outbox[id]) == Potential(outbox) + Left(e)
  {
    PotentialWithout(outbox, id);
    PotentialWithout(outbox[id := e], id);
    assert outbox[id := e] - {id} == outbox - {id};
  }

  /** The event writes an outcome: an answer, or a failure of a worker's attempt. */
  ghost predicate Records(q: Queue, e: Event) {
    e.Succeed? || e.Undecodable? || (e.Fail? && e.task in q.tasks && q.tasks[e.task].Worker?)
  }

  /** A recorded failure uses up an attempt exactly when its task's copy was not stale:
      an older copy gives attempts back. */
  lemma FailureUsesAttemptIff(q: Queue, e: Event)
    requires OverlapSafe(q) && Enabled(q, e) && e.Fail? && q.tasks[e.task].Worker?
    requires q.tasks[e.task].entry in q.outbox && q.outbox[q.tasks[e.task].entry].status == Pending
    ensures var t := q.tasks[e.task];
      Potential(Next(q, e).outbox) < Potential(q.outbox) <==> t.seen >= q.outbox[t.entry].attempts
  {
    var t := q.tasks[e.task];
    assert TaskOk(q.outbox, t) && EntryOk(q.outbox[t.entry]);
    PotentialUpdate(q.outbox, t.entry, Next(q, e).outbox[t.entry]);
  }

  ghost function Recorded(q: Queue, es: seq<Event>): nat
    requires Allowed(q, es)
    decreases |es|
  {
    if es == [] then 0
    else (if Records(q, es[0]) then 1 else 0) + Recorded(Next(q, es[0]), es[1..])
  }

  ghost predicate NoArrivals(es: seq<Event>) {
    forall i :: 0 <= i < |es| ==> !es[i].Enqueue?
  }

  lemma StepDrops(q: Queue, e: Event)
    requires SerialSafe(q) && Enabled(q, e) && !e.Enqueue?
    ensures Potential(Next(q, e).outbox) + (if Records(q, e) then 1 else 0) <= Potential(q.outbox)
  {
    if Records(q, e) {
      var t := q.tasks[e.task];
      assert SafeFor(q, t.entry) && Current(q, t) && EntryOk(q.outbox[t.entry]);
      PotentialUpdate(q.outbox, t.entry, Next(q, e).outbox[t.entry]);
    }
  }

  /** Every recorded outcome uses up an attempt: a fixed queue of serial attempts
      records at most the attempts its pending entries had. */
  lemma {:induction false} RetriesEnd(q: Queue, es: seq<Event>)
    requires SerialSafe(q) && Allowed(q, es) && SerialRun(q, es) && NoArrivals(es)
    ensures Potential(After(q, es).outbox) + Recorded(q, es) <= Potential(q.outbox)
    decreases |es|
  {
    if es != [] {
      StepDrops(q, es[0]);
      NextKeepsSerial(q, es[0]);
      assert forall i :: 0 <= i < |es[1..]| ==> es[1..][i] == es[i + 1];
      RetriesEnd(Next(q, es[0]), es[1..]);
    }
  }

  lemma {:induction false} PotentialBound(outbox: map<Id, Entry>)
    ensures Potential(outbox) <= 10 * |outbox|
    decreases |outbox|
  {
    if exists id :: id in outbox {
      var id :| id in outbox && Potential(outbox) == Left(outbox[id]) + Potential(outbox - {id});
      var rest := outbox - {id};
      PotentialBound(rest);
      assert outbox.Keys == rest.Keys + {id} && id !in rest.Keys;
      assert |outbox| == |outbox.Keys| && |rest| == |rest.Keys|;
      assert |outbox.Keys| == |rest.Keys| + 1;
      assert Left(outbox[id]) <= 10;
    }
  }

  lemma NonePending(outbox: map<Id, Entry>)
    requires forall id :: id in outbox ==> EntryOk(outbox[id])
    requires Potential(outbox) == 0
    ensures forall id :: id in outbox ==> outbox[id].status != Pending
  {
    forall id | id in outbox ensures outbox[id].status != Pending {
      PotentialWithout(outbox, id);
    }
  }

  /** After as many recorded outcomes as there were attempts left, nothing is pending. */
  lemma QueueSettles(q: Queue, es: seq<Event>)
    requires SerialSafe(q) && Allowed(q, es) && SerialRun(q, es) && NoArrivals(es)
    ensures Recorded(q, es) <= 10 * |q.outbox|
    ensures Recorded(q, es) >= Potential(q.outbox) ==>
      forall id :: id in After(q, es).outbox ==> After(q, es).outbox[id].status != Pending
  {
    RetriesEnd(q, es);
    RunOverlapSafe(q, es);
    PotentialBound(q.outbox);
    if Potential(After(q, es).outbox) == 0 {
      NonePending(After(q, es).outbox);
    }
  }

  // ----- The retry schedule -----

  /** Sum of the waits recorded after failures 1 to `n`, in seconds. */
  function Waits(n: nat): nat {
    if n == 0 then 0 else Waits(n - 1) + Backoff(n)
  }

  lemma ScheduleIs()
    ensures Backoff(1) == 20 && Backoff(2) == 40 && Backoff(3) == 80 && Backoff(4) == 160 && Backoff(5) == 320
    ensures Backoff(6) == 640 && Backoff(7) == 1280 && Backoff(8) == 2560 && Backoff(9) == 3600
    ensures Waits(9) == 8700
  {
  }

  lemma {:induction false} Pow2Monotone(m: nat, n: nat)
    requires m <= n
    ensures 1 <= Pow2(m) <= Pow2(n)
  {
    if n > 0 {
      Pow2Monotone(if m < n then m else m - 1, n - 1);
    }
  }

  /** The wait never shrinks, and is between 10 s and an hour. */
  lemma BackoffShape(m: nat, n: nat)
    requires m <= n
    ensures 10 <= Backoff(m) <= Backoff(n) <= 3600
    ensures m >= 9 ==> Backoff(m) == 3600
  {
    Pow2Monotone(if m < 12 then m else 12, if n < 12 then n else 12);
    if m >= 9 {
      Pow2Monotone(9, if m < 12 then m else 12);
      ScheduleIs();
    }
  }
}
