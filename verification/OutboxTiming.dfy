/** When retries happen, and that none is starved. */
module OutboxTiming {
  import opened Schema
  import opened Outbox
  import opened OutboxSerial

  // ----- Lower bound: ten serial failures take at least 8700 s -----

  /** While `id` is pending, its next attempt is at least the recorded waits after `t0`. */
  ghost predicate NotEarly(q: Queue, id: Id, t0: Time) {
    && id in q.outbox && q.outbox[id].body.Request?
    && (q.outbox[id].status == Pending ==>
      q.outbox[id].attempts >= 1 && q.outbox[id].nextAttempt >= t0 + Waits(q.outbox[id].attempts) * SECOND)
  }

  ghost predicate FailsNow(q: Queue, e: Event, id: Id) {
    e.Fail? && e.task in q.tasks && q.tasks[e.task].Worker? && q.tasks[e.task].entry == id
  }

  lemma StepNotEarly(q: Queue, e: Event, id: Id, t0: Time)
    requires SafeFor(q, id) && Enabled(q, e) && SerialFor(q, e, id) && NotEarly(q, id, t0)
    ensures NotEarly(Next(q, e), id, t0)
  {
  }

  lemma LastFailure(q: Queue, e: Event, id: Id, t0: Time)
    requires SafeFor(q, id) && Enabled(q, e) && NotEarly(q, id, t0)
    requires q.outbox[id].status == Pending && Next(q, e).outbox[id].status == Failed
    ensures q.outbox[id].attempts == 9 && q.now >= q.outbox[id].nextAttempt
  {
  }

  /** The first failure of `id` is recorded at `q.now`; if the run ends with the event
      that marks `id` failed, it takes at least 8700 s. */
  lemma {:induction false} TenFailuresTakeTime(q: Queue, es: seq<Event>, last: Event, id: Id, t0: Time)
    requires SafeFor(q, id) && Allowed(q, es) && SerialRunFor(q, es, id) && NotEarly(q, id, t0)
    requires Enabled(After(q, es), last) && SerialFor(After(q, es), last, id)
    requires id in After(q, es).outbox && After(q, es).outbox[id].status == Pending
    requires Next(After(q, es), last).outbox[id].status == Failed
    ensures After(q, es).now >= t0 + 8700 * SECOND
    decreases |es|
  {
    if es == [] {
      LastFailure(q, last, id, t0);
      ScheduleIs();
    } else {
      StepNotEarly(q, es[0], id, t0);
      NextKeepsSafe(q, es[0], id);
      TenFailuresTakeTime(Next(q, es[0]), es[1..], last, id, t0);
    }
  }

  lemma FirstFailure(q: Queue, e: Event, id: Id)
    requires SafeFor(q, id) && Enabled(q, e) && FailsNow(q, e, id) && q.outbox[id].attempts == 0
    ensures NotEarly(Next(q, e), id, q.now)
  {
  }

  /** The tenth failure comes at least 8700 s after the first. */
  lemma TenthFailureIsLate(q: Queue, first: Event, es: seq<Event>, last: Event, id: Id)
    requires SafeFor(q, id) && Enabled(q, first) && FailsNow(q, first, id) && q.outbox[id].attempts == 0
    requires Allowed(Next(q, first), es) && SerialRunFor(Next(q, first), es, id)
    requires var z := After(Next(q, first), es);
      && Enabled(z, last) && SerialFor(z, last, id)
      && id in z.outbox && z.outbox[id].status == Pending && Next(z, last).outbox[id].status == Failed
    ensures After(Next(q, first), es).now - q.now >= 8700 * SECOND
  {
    FirstFailure(q, first, id);
    NextKeepsSafe(q, first, id);
    TenFailuresTakeTime(Next(q, first), es, last, id, q.now);
  }

  // ----- Upper bound: with punctual polls and attempts, at most 8700 s + 9 (G + D) -----

  /** Polls are at most `g` apart and fetch `id` when it is due; its attempts record
      their outcome, and do so within `d`. */
  ghost predicate Punctual(q: Queue, e: Event, id: Id, g: nat, d: nat) {
    match e
    case Tick(to) =>
      && to <= q.lastPoll + g
      && forall t :: t in q.tasks && q.tasks[t].Worker? && q.tasks[t].entry == id ==> to <= q.tasks[t].fetched + d
    case Poll(spawn) => Due(q.outbox, q.now, id) ==> id in Taken(spawn)
    case Vanish(t) => t in q.tasks ==> q.tasks[t].entry != id
    case _ => true
  }

  ghost predicate PunctualRun(q: Queue, es: seq<Event>, id: Id, g: nat, d: nat)
    requires Allowed(q, es)
    decreases |es|
  {
    es == [] || (Punctual(q, es[0], id, g, d) && PunctualRun(Next(q, es[0]), es[1..], id, g, d))
  }

  ghost predicate Clocked(q: Queue, id: Id, g: nat, d: nat) {
    && q.lastPoll <= q.now <= q.lastPoll + g
    && forall t :: t in q.tasks && q.tasks[t].Worker? && q.tasks[t].entry == id ==> q.now <= q.tasks[t].fetched + d
  }

  /** A pending `id` that failed first at `t0` is behind schedule by at most one
      poll gap and one attempt per failure. */
  ghost predicate OnTime(q: Queue, id: Id, t0: Time, g: nat, d: nat) {
    && id in q.outbox
    && (q.outbox[id].status == Pending ==>
      var e := q.outbox[id];
      && 1 <= e.attempts
      && e.nextAttempt <= t0 + Waits(e.attempts) * SECOND + (e.attempts - 1) * (g + d)
      && (Idle(q, id) ==> q.lastPoll < e.nextAttempt)
      && (forall t :: t in q.tasks && q.tasks[t].entry == id ==>
        q.tasks[t].Worker? && q.tasks[t].fetched <= e.nextAttempt + g))
  }

  lemma StepClocked(q: Queue, e: Event, id: Id, g: nat, d: nat)
    requires Enabled(q, e) && Punctual(q, e, id, g, d) && Clocked(q, id, g, d)
    ensures Clocked(Next(q, e), id, g, d)
  {
  }

  /** The event ends an attempt for `id`. */
  ghost predicate EndsAttempt(q: Queue, e: Event, id: Id) {
    (e.Succeed? || e.Fail? || e.Undecodable? || e.Vanish?) && e.task in q.tasks && q.tasks[e.task].entry == id
  }

  lemma AttemptSettles(q: Queue, e: Event, id: Id)
    requires SafeFor(q, id) && Enabled(q, e) && EndsAttempt(q, e, id) && q.tasks[e.task].Worker?
    requires !e.Vanish? && !FailsNow(q, e, id)
    ensures id in Next(q, e).outbox && Next(q, e).outbox[id].status != Pending
  {
    assert Current(q, q.tasks[e.task]);
  }

  lemma OtherEventOnTime(q: Queue, e: Event, id: Id, t0: Time, g: nat, d: nat)
    requires SafeFor(q, id) && Enabled(q, e) && Punctual(q, e, id, g, d)
    requires OnTime(q, id, t0, g, d) && Clocked(q, id, g, d)
    requires !e.Poll? && !FailsNow(q, e, id)
    ensures OnTime(Next(q, e), id, t0, g, d)
  {
    var q' := Next(q, e);
    if EndsAttempt(q, e, id) {
      if q.outbox[id].status == Pending {
        AttemptSettles(q, e, id);
      }
    } else if q'.outbox[id].status == Pending && Idle(q', id) {
      forall t | t in q.tasks ensures q.tasks[t].entry != id {
        assert t in q'.tasks ==> q'.tasks[t] == q.tasks[t];
      }
    }
  }

  lemma PollOnTime(q: Queue, e: Event, id: Id, t0: Time, g: nat, d: nat)
    requires SafeFor(q, id) && Enabled(q, e) && SerialFor(q, e, id) && Punctual(q, e, id, g, d)
    requires OnTime(q, id, t0, g, d) && Clocked(q, id, g, d) && e.Poll?
    ensures OnTime(Next(q, e), id, t0, g, d)
  {
    var q' := Next(q, e);
    forall t | t in q'.tasks && q'.tasks[t].entry == id && q.outbox[id].status == Pending
      ensures q'.tasks[t].Worker? && q'.tasks[t].fetched <= q.outbox[id].nextAttempt + g
    {
      if t in e.spawn {
        assert e.spawn[t] in Taken(e.spawn);
      }
    }
    if Idle(q', id) && q.outbox[id].status == Pending {
      assert Idle(q, id) by {
        forall t | t in q.tasks ensures q.tasks[t].entry != id { assert t in q'.tasks && q'.tasks[t] == q.tasks[t]; }
      }
      forall t | t in e.spawn ensures e.spawn[t] != id {
        assert e.spawn[t] in Taken(e.spawn) && Due(q.outbox, q.now, e.spawn[t]);
        assert t in q'.tasks && q'.tasks[t].entry == e.spawn[t];
      }
    }
  }

  lemma OneMoreTime(c: int, x: int)
    ensures (c - 1) * x + x == c * x
  {
  }

  lemma LateBy(q: Queue, id: Id, t0: Time, g: nat, d: nat)
    requires OnTime(q, id, t0, g, d) && Clocked(q, id, g, d) && q.outbox[id].status == Pending
    ensures q.now <= t0 + Waits(q.outbox[id].attempts) * SECOND + q.outbox[id].attempts * (g + d)
  {
    var c := q.outbox[id].attempts;
    OneMoreTime(c, g + d);
    if !Idle(q, id) {
      var t :| t in q.tasks && q.tasks[t].entry == id;
      assert q.now <= q.tasks[t].fetched + d;
    }
  }

  lemma FailOnTime(q: Queue, e: Event, id: Id, t0: Time, g: nat, d: nat)
    requires SafeFor(q, id) && Enabled(q, e) && FailsNow(q, e, id)
    requires OnTime(q, id, t0, g, d) && Clocked(q, id, g, d)
    ensures OnTime(Next(q, e), id, t0, g, d)
  {
    var q' := Next(q, e);
    assert Current(q, q.tasks[e.task]) && TaskOk(q.outbox, q.tasks[e.task]);
    LateBy(q, id, t0, g, d);
    BackoffShape(1, q.outbox[id].attempts + 1);
    assert Waits(q.outbox[id].attempts + 1) == Waits(q.outbox[id].attempts) + Backoff(q.outbox[id].attempts + 1);
  }

  lemma StepOnTime(q: Queue, e: Event, id: Id, t0: Time, g: nat, d: nat)
    requires SafeFor(q, id) && Enabled(q, e) && SerialFor(q, e, id) && Punctual(q, e, id, g, d)
    requires OnTime(q, id, t0, g, d) && Clocked(q, id, g, d)
    ensures SafeFor(Next(q, e), id) && OnTime(Next(q, e), id, t0, g, d) && Clocked(Next(q, e), id, g, d)
  {
    StepClocked(q, e, id, g, d);
    NextKeepsSafe(q, e, id);
    if e.Poll? {
      PollOnTime(q, e, id, t0, g, d);
    } else {
      if FailsNow(q, e, id) {
        FailOnTime(q, e, id, t0, g, d);
      } else {
        OtherEventOnTime(q, e, id, t0, g, d);
      }
    }
  }

  lemma {:induction false} RunOnTime(q: Queue, es: seq<Event>, id: Id, t0: Time, g: nat, d: nat)
    requires SafeFor(q, id) && Allowed(q, es) && SerialRunFor(q, es, id) && PunctualRun(q, es, id, g, d)
    requires OnTime(q, id, t0, g, d) && Clocked(q, id, g, d)
    ensures var z := After(q, es); SafeFor(z, id) && OnTime(z, id, t0, g, d) && Clocked(z, id, g, d)
    decreases |es|
  {
    if es != [] {
      StepOnTime(q, es[0], id, t0, g, d);
      RunOnTime(Next(q, es[0]), es[1..], id, t0, g, d);
    }
  }

  lemma {:induction false} WaitsMonotone(m: nat, n: nat)
    requires m <= n
    ensures Waits(m) <= Waits(n)
    decreases n
  {
    if m < n { WaitsMonotone(m, n - 1); }
  }

  lemma Scaled(c: nat, k: nat, x: nat)
    requires c <= k
    ensures c * x <= k * x
  {
  }

  lemma FirstFailureOnTime(q: Queue, e: Event, id: Id, g: nat, d: nat)
    requires SafeFor(q, id) && Enabled(q, e) && FailsNow(q, e, id) && q.outbox[id].attempts == 0 && Clocked(q, id, g, d)
    ensures OnTime(Next(q, e), id, q.now, g, d) && Clocked(Next(q, e), id, g, d)
  {
  }

  /** After its first failure an entry stays pending for at most 8700 s + 9 (g + d). */
  lemma SettledInTime(q: Queue, first: Event, es: seq<Event>, id: Id, g: nat, d: nat)
    requires SafeFor(q, id) && Enabled(q, first) && FailsNow(q, first, id) && q.outbox[id].attempts == 0
    requires Clocked(q, id, g, d)
    requires Allowed(Next(q, first), es) && SerialRunFor(Next(q, first), es, id)
    requires PunctualRun(Next(q, first), es, id, g, d)
    ensures var z := After(Next(q, first), es);
      id in z.outbox && (z.outbox[id].status == Pending ==> z.now - q.now <= 8700 * SECOND + 9 * (g + d))
  {
    var q1 := Next(q, first);
    ScheduleIs();
    NextKeepsSafe(q, first, id);
    FirstFailureOnTime(q, first, id, g, d);
    RunOnTime(q1, es, id, q.now, g, d);
    var z := After(q1, es);
    if z.outbox[id].status == Pending {
      LateBy(z, id, q.now, g, d);
      assert EntryOk(z.outbox[id]);
      var c := z.outbox[id].attempts;
      WaitsMonotone(c, 9);
      Scaled(c, 9, g + d);
    }
  }

  // ----- No starvation -----

  /** Every fetched attempt writes its outcome, and does so before the next poll. */
  ghost predicate Prompt(q: Queue, e: Event) {
    && (e.Poll? ==> forall t :: t in q.tasks ==> q.tasks[t].Immediate?)
    && (e.Vanish? ==> e.task in q.tasks && q.tasks[e.task].Immediate?)
  }

  ghost predicate PromptRun(q: Queue, es: seq<Event>)
    requires Allowed(q, es)
    decreases |es|
  {
    es == [] || (Prompt(q, es[0]) && PromptRun(Next(q, es[0]), es[1..]))
  }

  /** `id` has been due for some time and no poll has taken it. */
  ghost predicate Overdue(q: Queue, id: Id) {
    && id in q.outbox && q.outbox[id].status == Pending && q.outbox[id].nextAttempt < q.now
    && forall t :: t in q.tasks && q.tasks[t].Worker? ==> q.tasks[t].entry != id
  }

  ghost predicate InFront(q: Queue, id: Id, x: Id)
    requires id in q.outbox
  {
    && x != id && x in q.outbox && q.outbox[x].status == Pending && q.outbox[x].nextAttempt <= q.outbox[id].nextAttempt
    && forall t :: t in q.tasks && q.tasks[t].Worker? ==> q.tasks[t].entry != x
  }

  /** The pending entries that may be fetched before `id`. */
  ghost function Ahead(q: Queue, id: Id): set<Id>
    requires id in q.outbox
  {
    set x | x in q.outbox && InFront(q, id, x)
  }

  ghost function Polls(es: seq<Event>): nat {
    if es == [] then 0 else (if es[0].Poll? then 1 else 0) + Polls(es[1..])
  }

  /** The queue before event `i` of a run. */
  ghost function Before(q: Queue, es: seq<Event>, i: nat): Queue
    requires Allowed(q, es) && i <= |es|
    decreases |es|
  {
    if i == 0 then q else Before(Next(q, es[0]), es[1..], i - 1)
  }

  /** The event is a poll that fetches `id`, or the answer to its immediate attempt. */
  ghost predicate Serves(q: Queue, e: Event, id: Id) {
    || (e.Poll? && id in Taken(e.spawn))
    || (e.Succeed? && e.task in q.tasks && q.tasks[e.task].Immediate? && q.tasks[e.task].entry == id)
  }

  /** Event `i` serves `id`, with fewer than `n` polls before it. */
  ghost predicate ServedAt(q: Queue, es: seq<Event>, id: Id, n: nat, i: nat)
    requires Allowed(q, es)
  {
    i < |es| && Serves(Before(q, es, i), es[i], id) && Polls(es[..i]) < n
  }

  ghost predicate ServedWithin(q: Queue, es: seq<Event>, id: Id, n: nat)
    requires Allowed(q, es)
  {
    exists i: nat :: ServedAt(q, es, id, n, i)
  }

  lemma StepAhead(q: Queue, e: Event, id: Id)
    requires Overdue(q, id) && Enabled(q, e) && Prompt(q, e) && !Serves(q, e, id)
    ensures Overdue(Next(q, e), id) && Ahead(Next(q, e), id) <= Ahead(q, id)
  {
    var q' := Next(q, e);
    forall t | t in q'.tasks && q'.tasks[t].Worker? ensures q'.tasks[t].entry != id {
      if e.Poll? && t in e.spawn {
        assert e.spawn[t] in Taken(e.spawn);
      }
    }
    forall x | InFront(q', id, x) ensures InFront(q, id, x) {
      forall t | t in q.tasks && q.tasks[t].Worker? ensures q.tasks[t].entry != x {
        if t in q'.tasks {
          assert q'.tasks[t] == q.tasks[t];
        }
      }
    }
  }

  lemma PollTakesHundred(q: Queue, e: Event, id: Id)
    requires Overdue(q, id) && Enabled(q, e) && Prompt(q, e) && e.Poll? && id !in Taken(e.spawn)
    requires Ahead(Next(q, e), id) <= Ahead(q, id)
    ensures |Ahead(Next(q, e), id)| + BATCH <= |Ahead(q, id)|
  {
    var q' := Next(q, e);
    var batch := Taken(e.spawn);
    assert Due(q.outbox, q.now, id);
    assert |batch| == BATCH;
    forall x | x in batch ensures x in Ahead(q, id) && x !in Ahead(q', id) {
      assert Due(q.outbox, q.now, x);
      var t :| t in e.spawn && e.spawn[t] == x;
      assert t in q'.tasks && q'.tasks[t] == Snapshot(q, x);
    }
    assert batch !! Ahead(q', id) && batch + Ahead(q', id) <= Ahead(q, id);
    CardinalityOfParts(batch, Ahead(q', id), Ahead(q, id));
  }

  lemma {:induction false} SubsetSize(a: set<Id>, b: set<Id>)
    requires a <= b
    ensures |a| <= |b|
    decreases |b|
  {
    if exists x :: x in a {
      var x :| x in a;
      SubsetSize(a - {x}, b - {x});
    } else {
      assert a == {};
    }
  }

  lemma CardinalityOfParts(a: set<Id>, b: set<Id>, c: set<Id>)
    requires a !! b && a + b <= c
    ensures |a| + |b| <= |c|
  {
    assert |a + b| == |a| + |b|;
    SubsetSize(a + b, c);
  }

  /** A poll that passes over `id` takes a hundred of the entries in front of it, and
      no event puts another one there. */
  lemma EachPollServesHundred(q: Queue, e: Event, id: Id)
    requires Enabled(q, e) && Overdue(q, id) && Prompt(q, e) && !Serves(q, e, id)
    ensures Overdue(Next(q, e), id)
    ensures |Ahead(Next(q, e), id)| + (if e.Poll? then 100 else 0) <= |Ahead(q, id)|
  {
    StepAhead(q, e, id);
    if e.Poll? {
      PollTakesHundred(q, e, id);
    } else {
      SubsetSize(Ahead(Next(q, e), id), Ahead(q, id));
    }
  }

  lemma ServedLater(q: Queue, es: seq<Event>, id: Id, n: nat)
    requires Allowed(q, es) && es != [] && ServedWithin(Next(q, es[0]), es[1..], id, n)
    ensures ServedWithin(q, es, id, n + (if es[0].Poll? then 1 else 0))
  {
    var i: nat :| ServedAt(Next(q, es[0]), es[1..], id, n, i);
    assert es[..i + 1][0] == es[0] && es[..i + 1][1..] == es[1..][..i];
    assert ServedAt(q, es, id, n + (if es[0].Poll? then 1 else 0), i + 1);
  }

  lemma ServedSooner(q: Queue, es: seq<Event>, id: Id, m: nat, n: nat)
    requires Allowed(q, es) && ServedWithin(q, es, id, m) && m <= n
    ensures ServedWithin(q, es, id, n)
  {
    var i: nat :| ServedAt(q, es, id, m, i);
    assert ServedAt(q, es, id, n, i);
  }

  /** A poll that takes a hundred of `a` entries leaves `b`, which need one poll fewer. */
  lemma OneRoundFewer(a: nat, b: nat, poll: bool)
    requires b + (if poll then 100 else 0) <= a
    ensures b / 100 + (if poll then 1 else 0) <= a / 100
  {
  }

  /** In a prompt run with more than k / 100 polls, an overdue entry with `k` pending
      entries in front of it is fetched, or delivered by its immediate attempt, at the
      latest by the poll that comes after k / 100 others. */
  lemma {:induction false} NoStarvation(q: Queue, es: seq<Event>, id: Id)
    requires Allowed(q, es) && PromptRun(q, es) && Overdue(q, id)
    requires Polls(es) > |Ahead(q, id)| / 100
    ensures ServedWithin(q, es, id, |Ahead(q, id)| / 100 + 1)
    decreases |es|
  {
    var n := |Ahead(q, id)| / 100 + 1;
    if Serves(q, es[0], id) {
      assert ServedAt(q, es, id, n, 0);
    } else {
      var q' := Next(q, es[0]);
      EachPollServesHundred(q, es[0], id);
      var m := |Ahead(q', id)| / 100 + 1;
      OneRoundFewer(|Ahead(q, id)|, |Ahead(q', id)|, es[0].Poll?);
      NoStarvation(q', es[1..], id);
      ServedLater(q, es, id, m);
      ServedSooner(q, es, id, m + (if es[0].Poll? then 1 else 0), n);
    }
  }
}
