/** The request handlers, the delivery tasks and the node authentication, as
    imperative code over one database.

    Each is proved to do exactly what the corresponding model does when no other
    statement comes between its own; what happens when others do is proved about
    the models. */
module Handlers {
  import opened Schema
  import opened ReceivePipeline
  import opened Repository
  import opened SingleRun
  import Chats
  import Codec
  import Confluence
  import Draining
  import Nonces
  import NodeAuth
  import Outbox
  import Sessions
  import Uninterrupted

  // ----- POST /s2s/messages -----

  /** No two identifiers for message rows are the same, and none is in use. */
  ghost predicate NewRowIds(messages: map<Id, Message>, uuid: nat -> Id, n: nat) {
    && (forall i :: 0 <= i < n ==> uuid(i) !in messages)
    && (forall i, j :: 0 <= i < j < n ==> uuid(i) != uuid(j))
  }

  /** The identifiers generated for a user, a chat and a delivery of `n` items: none is in use. */
  ghost predicate NewIds(db: Db, user: Id, chat: Id, uuid: nat -> Id, n: nat) {
    user !in db.users && chat !in db.chats && NewRowIds(db.messages, uuid, n)
  }

  /** The loop over the device payloads.  `run` are the generated identifiers it used. */
  method StoreItems(t: Database, job: Job, recipient: Id, sender: Id, chat: Id, uuid: nat -> Id, now: Time)
    returns (r: Result<bool>, ghost run: seq<Id>)
    requires t.Valid()
    modifies t`messages
    ensures var start := Storing(recipient, sender, chat, 0, false);
      var (end, db) := Uninterrupted.Alone(job, start, old(t.Tables()), run, now);
      && t.Tables() == db
      && end == match r case Ok(anyNew) => Replied(recipient, sender, chat, anyNew) case Err => Stopped
    ensures NewRowIds(old(t.messages), uuid, |job.body.items|) ==>
      Uninterrupted.Lucky(job, Storing(recipient, sender, chat, 0, false), old(t.Tables()), run, now)
    ensures t.Valid()
  {
    ghost var start, db0 := Storing(recipient, sender, chat, 0, false), t.Tables();
    r, run := InsertItems(t, job, recipient, sender, chat, uuid, now);
    if NewRowIds(db0.messages, uuid, |job.body.items|) {
      StoringLucky(job, start, db0, run, now);
    }
  }

  method InsertItems(t: Database, job: Job, recipient: Id, sender: Id, chat: Id, uuid: nat -> Id, now: Time)
    returns (r: Result<bool>, ghost run: seq<Id>)
    requires t.Valid()
    modifies t`messages
    ensures var start := Storing(recipient, sender, chat, 0, false);
      var (end, db) := Uninterrupted.Alone(job, start, old(t.Tables()), run, now);
      && t.Tables() == db
      && end == match r case Ok(anyNew) => Replied(recipient, sender, chat, anyNew) case Err => Stopped
    ensures run <= Generated(uuid, |job.body.items|)
    ensures t.Valid()
  {
    ghost var start, db0 := Storing(recipient, sender, chat, 0, false), t.Tables();
    ghost var ids := Generated(uuid, |job.body.items|);
    var anyNew, i := false, 0;
    while i < |job.body.items|
      invariant 0 <= i <= |job.body.items| && t.Valid()
      invariant Uninterrupted.Alone(job, start, db0, ids[..i], now) ==
        (Storing(recipient, sender, chat, i, anyNew), t.Tables())
    {
      AlonePrefix(job, start, db0, ids, i, now);
      var inserted := InsertItem(t, job, Storing(recipient, sender, chat, i, anyNew), uuid(i), now);
      if inserted.Err? {
        return Err, ids[..i + 1];
      }
      anyNew := anyNew || inserted.value;
      i := i + 1;
    }
    AlonePrefix(job, start, db0, ids, i, now);
    r, run := Ok(anyNew), ids[..i + 1];
  }

  /** The identifiers for `n` rows; the last statement of a run does not use its own. */
  ghost function Generated(uuid: nat -> Id, n: nat): (ids: seq<Id>)
    ensures |ids| == n + 1 && forall k :: 0 <= k < n ==> ids[k] == uuid(k)
  {
    seq(n, k requires 0 <= k < n => uuid(k)) + [0]
  }

  lemma AlonePrefix(job: Job, pc: Pc, db: Db, ids: seq<Id>, i: nat, now: Time)
    requires i < |ids|
    ensures Uninterrupted.Alone(job, pc, db, ids[..i + 1], now) ==
      var (pc', db') := Uninterrupted.Alone(job, pc, db, ids[..i], now); Advance(job, pc', db', ids[i], now)
  {
    assert ids[..i + 1] == ids[..i] + [ids[i]];
    AloneSnoc(job, pc, db, ids[..i], ids[i], now);
  }

  /** The item at `pc.next`. */
  method InsertItem(t: Database, job: Job, pc: Pc, uuid: Id, now: Time) returns (inserted: Result<bool>)
    requires t.Valid() && pc.Storing? && pc.next < |job.body.items|
    modifies t`messages
    ensures Advance(job, pc, old(t.Tables()), uuid, now) == (
      match inserted case Ok(isNew) => pc.(next := pc.next + 1, anyNew := pc.anyNew || isNew) case Err => Stopped,
      t.Tables())
    ensures t.Valid()
  {
    inserted := t.InsertFederatedMessage(uuid, ItemRow(job.body, pc.next, pc.recipient, pc.sender, pc.chat, now));
  }

  /** Distinct identifiers that are not in use collide with nothing while rows are stored. */
  lemma {:induction false} StoringLucky(job: Job, pc: Pc, db: Db, ids: seq<Id>, now: Time)
    requires pc.Storing? || pc.Replied? || pc.Stopped?
    requires pc.Storing? ==>
      && (forall k :: 0 <= k < |ids| && pc.next + k < |job.body.items| ==> ids[k] !in db.messages)
      && (forall k, l :: 0 <= k < l < |ids| && pc.next + l < |job.body.items| ==> ids[k] != ids[l])
    ensures Uninterrupted.Lucky(job, pc, db, ids, now)
    decreases |ids|
  {
    if ids != [] {
      var next := Advance(job, pc, db, ids[0], now);
      StoringLucky(job, next.0, next.1, ids[1..], now);
    }
  }

  /** The sender's shadow user and shadow device. */
  method UpsertSender(t: Database, job: Job, recipient: Id, uuid: Id, now: Time)
    returns (sender: Result<Id>, ghost run: seq<Id>)
    requires t.Valid()
    modifies t`users, t`devices
    ensures var (end, db) := Uninterrupted.Alone(job, Shadowing(recipient), old(t.Tables()), run, now);
      && t.Tables() == db
      && end == match sender case Ok(s) => Looking(recipient, s) case Err => Stopped
    ensures uuid !in old(t.users) ==> Uninterrupted.Lucky(job, Shadowing(recipient), old(t.Tables()), run, now)
    ensures t.Valid()
  {
    ghost var db0 := t.Tables();
    OneStep(job, Shadowing(recipient), db0, uuid, now);
    Uninterrupted.OneLucky(job, Shadowing(recipient), db0, uuid, now);
    run := [uuid];
    sender := t.UpsertShadowUser(uuid, Codec.SenderName(job.body.fromAddress), job.body.fromAddress, job.peer);
    if sender.Ok? {
      AloneSnoc(job, Shadowing(recipient), db0, run, uuid, now);
      Uninterrupted.LuckySnoc(job, Shadowing(recipient), db0, run, uuid, now);
      run := run + [uuid];
      var ok := t.UpsertShadowDevice(job.body.fromDevice, sender.value, job.body.fromPubkey);
      if !ok {
        sender := Err;
      }
    }
  }

  /** The chat, with its SELECT and, if need be, its INSERT. */
  method ResolveChat(t: Database, job: Job, recipient: Id, sender: Id, uuid: Id, now: Time)
    returns (chat: Result<Id>, ghost run: seq<Id>)
    requires t.Valid()
    modifies t`chats
    ensures var (end, db) := Uninterrupted.Alone(job, Looking(recipient, sender), old(t.Tables()), run, now);
      && t.Tables() == db
      && end == match chat case Ok(c) => Storing(recipient, sender, c, 0, false) case Err => Stopped
    ensures uuid !in old(t.chats) ==> Uninterrupted.Lucky(job, Looking(recipient, sender), old(t.Tables()), run, now)
    ensures t.Valid()
  {
    run := if ChatKnown(t.Tables(), Ordered(sender, recipient)) then [uuid] else [uuid, uuid];
    ChatSteps(job, t.Tables(), recipient, sender, uuid, now);
    chat := t.GetOrCreateDirectChat(uuid, sender, recipient);
  }

  /** The sender, the chat and the rows, for a recipient that was found. */
  method Deliver(
    t: Database, job: Job, recipient: Id, forUser: Id, forChat: Id, uuid: nat -> Id, now: Time)
    returns (r: Result<bool>, ghost run: seq<Id>)
    requires t.Valid()
    modifies t`users, t`devices, t`chats, t`messages
    ensures var (end, db) := Uninterrupted.Alone(job, Shadowing(recipient), old(t.Tables()), run, now);
      && t.Tables() == db
      && match r case Ok(anyNew) => end.Replied? && end.anyNew == anyNew case Err => end == Stopped
    ensures NewIds(old(t.Tables()), forUser, forChat, uuid, |job.body.items|) ==>
      Uninterrupted.Lucky(job, Shadowing(recipient), old(t.Tables()), run, now)
    ensures t.Valid()
  {
    ghost var db0 := t.Tables();
    ghost var more;
    var sender, chat;
    sender, run := UpsertSender(t, job, recipient, forUser, now);
    if sender.Err? {
      return Err, run;
    }
    chat, more := ResolveChat(t, job, recipient, sender.value, forChat, now);
    AloneAppend(job, Shadowing(recipient), db0, run, more, now);
    LuckyMore(job, Shadowing(recipient), db0, run, more, now);
    run := run + more;
    if chat.Err? {
      return Err, run;
    }
    r, more := StoreItems(t, job, recipient, sender.value, chat.value, uuid, now);
    AloneAppend(job, Shadowing(recipient), db0, run, more, now);
    LuckyMore(job, Shadowing(recipient), db0, run, more, now);
    run := run + more;
  }

  /** One delivery.  The reply and the tables are those of an uninterrupted run; a
      reply "delivered" or "duplicate" means that the whole delivery is in the tables,
      and says truly whether any row is new. */
  method ReceiveMessages(t: Database, job: Job, forUser: Id, forChat: Id, uuid: nat -> Id, now: Time)
    returns (reply: Reply, ghost run: seq<Id>)
    requires t.Valid()
    modifies t`users, t`devices, t`chats, t`messages
    ensures var (end, db) := Uninterrupted.Alone(job, Resolving, old(t.Tables()), run, now);
      && (end.Replied? || end.Stopped?)
      && t.Tables() == db && reply == Response(job, old(t.Tables()), end)
    ensures t.Valid() && Confluence.Between(job, old(t.Tables()), t.Tables())
    ensures Honest(job, old(t.Tables()), t.Tables(), reply)
    ensures NewIds(old(t.Tables()), forUser, forChat, uuid, |job.body.items|) ==>
      (reply.Ack? <==> Uninterrupted.Deliverable(job, old(t.Tables())))
    ensures RowsPersist(old(t.messages), t.messages)
    ensures forall m :: m in t.messages && m !in old(t.messages) ==>
      t.messages[m].createdAt == now && t.messages[m].deliveredAt == None
  {
    ghost var db0, end := t.Tables(), Resolving;
    reply, run, end := ResolveAndDeliver(t, job, forUser, forChat, uuid, now);
    ResponseIsHonest(job, db0, run, now);
    AloneIsNow(job, Resolving, db0, run, now);
    AloneKeepsMessages(job, Resolving, db0, run, now);
    if NewIds(db0, forUser, forChat, uuid, |job.body.items|) {
      AcknowledgedIffDeliverable(job, db0, run, now, reply);
    }
  }

  method ResolveAndDeliver(t: Database, job: Job, forUser: Id, forChat: Id, uuid: nat -> Id, now: Time)
    returns (reply: Reply, ghost run: seq<Id>, ghost end: Pc)
    requires t.Valid()
    modifies t`users, t`devices, t`chats, t`messages
    ensures Uninterrupted.Alone(job, Resolving, old(t.Tables()), run, now) == (end, t.Tables())
    ensures (end.Replied? || end.Stopped?) && reply == Response(job, old(t.Tables()), end)
    ensures NewIds(old(t.Tables()), forUser, forChat, uuid, |job.body.items|) ==>
      Uninterrupted.Lucky(job, Resolving, old(t.Tables()), run, now)
  {
    ghost var db0 := t.Tables();
    run := [forUser];
    OneStep(job, Resolving, db0, forUser, now);
    Uninterrupted.OneLucky(job, Resolving, db0, forUser, now);
    var recipient := t.GetLocalUserIdByUsername(job.body.toUser);
    assert t.Tables() == db0;
    if recipient == None {
      Unresolved(job, db0, forUser, now);
      reply, end := NotFound, Stopped;
    } else {
      ResolvedTo(job, db0, recipient.value, forUser, now);
      var r;
      ghost var more;
      r, more := Deliver(t, job, recipient.value, forUser, forChat, uuid, now);
      end := Uninterrupted.Alone(job, Shadowing(recipient.value), db0, more, now).0;
      AloneAppend(job, Resolving, db0, run, more, now);
      LuckyMore(job, Resolving, db0, run, more, now);
      run := run + more;
      reply := match r case Ok(anyNew) => Ack(if anyNew then "delivered" else "duplicate") case Err => InternalError;
    }
  }

  lemma OneStep(job: Job, pc: Pc, db: Db, uuid: Id, now: Time)
    ensures Uninterrupted.Alone(job, pc, db, [uuid], now) == Advance(job, pc, db, uuid, now)
  {
  }

  lemma LuckyMore(job: Job, pc: Pc, db: Db, uuids: seq<Id>, more: seq<Id>, now: Time)
    ensures var (pc', db') := Uninterrupted.Alone(job, pc, db, uuids, now);
      Uninterrupted.Lucky(job, pc, db, uuids, now) && Uninterrupted.Lucky(job, pc', db', more, now) ==>
      Uninterrupted.Lucky(job, pc, db, uuids + more, now)
  {
    var end := Uninterrupted.Alone(job, pc, db, uuids, now);
    if Uninterrupted.Lucky(job, pc, db, uuids, now) && Uninterrupted.Lucky(job, end.0, end.1, more, now) {
      Uninterrupted.LuckyAppend(job, pc, db, uuids, more, now);
    }
  }

  lemma ResolvedTo(job: Job, db: Db, recipient: Id, uuid: Id, now: Time)
    requires UniqueNames(db.users) && LocalNamed(db, recipient, job.body.toUser)
    ensures Advance(job, Resolving, db, uuid, now) == (Shadowing(recipient), db)
  {
  }

  lemma Unresolved(job: Job, db: Db, uuid: Id, now: Time)
    requires forall u :: !LocalNamed(db, u, job.body.toUser)
    ensures Advance(job, Resolving, db, uuid, now) == (Stopped, db) && Response(job, db, Stopped) == NotFound
  {
  }

  lemma ChatSteps(job: Job, db: Db, recipient: Id, sender: Id, uuid: Id, now: Time)
    ensures var (pc, _) := Advance(job, Looking(recipient, sender), db, uuid, now);
      && Uninterrupted.Alone(job, Looking(recipient, sender), db, [uuid], now) == (pc, db)
      && Uninterrupted.Alone(job, Looking(recipient, sender), db, [uuid, uuid], now) == Advance(job, pc, db, uuid, now)
      && Uninterrupted.Lucky(job, Looking(recipient, sender), db, [uuid], now)
      && (uuid !in db.chats && !ChatKnown(db, Ordered(sender, recipient)) ==>
        Uninterrupted.Lucky(job, Looking(recipient, sender), db, [uuid, uuid], now))
  {
    assert [uuid] + [uuid] == [uuid, uuid];
    OneStep(job, Looking(recipient, sender), db, uuid, now);
    AloneSnoc(job, Looking(recipient, sender), db, [uuid], uuid, now);
    Uninterrupted.OneLucky(job, Looking(recipient, sender), db, uuid, now);
    Uninterrupted.LuckySnoc(job, Looking(recipient, sender), db, [uuid], uuid, now);
  }

  // ----- The outbox worker -----

  ghost function QueueOf(outbox: map<Id, Outbox.Entry>, tasks: map<Id, Outbox.Task>, now: Time): Outbox.Queue {
    Outbox.Queue(now, now, outbox, tasks)
  }

  /** One round of the polling loop: the purge, the fetch, and a task with its own copy
      for every entry of the batch. */
  method Poll(t: Database, now: Time) returns (tasks: seq<Outbox.Task>)
    modifies t`nonces
    ensures t.nonces == Nonces.Step(old(t.nonces), Nonces.Purge(now))
    ensures forall k :: k in t.nonces <==> k in old(t.nonces) && old(t.nonces)[k] >= now - 300 * SECOND
    ensures forall i :: 0 <= i < |tasks| ==>
      tasks[i].entry in t.outbox && tasks[i] == Outbox.Snapshot(QueueOf(t.outbox, map[], now), tasks[i].entry)
    ensures forall i :: 0 <= i < |tasks| ==>
      var e := t.outbox[tasks[i].entry];
      && tasks[i] == Outbox.Worker(tasks[i].entry, e.target, e.body, e.attempts, now)
      && e.status == Outbox.Pending && e.nextAttempt <= now
    ensures |tasks| <= 100 && (|tasks| < 100 ==>
      forall id :: Outbox.Due(t.outbox, now, id) ==> exists i :: 0 <= i < |tasks| && tasks[i].entry == id)
    ensures forall i, j :: 0 <= i < j < |tasks| ==> tasks[i].entry != tasks[j].entry
    ensures Outbox.IsDueBatch(t.outbox, now, set i | 0 <= i < |tasks| :: tasks[i].entry)
  {
    t.PurgeExpiredNonces(now);
    var entries := t.FetchDueOutboxEntries(now);
    tasks := [];
    for i := 0 to |entries|
      invariant |tasks| == i
      invariant forall j :: 0 <= j < i ==> tasks[j].entry == entries[j]
      invariant forall j :: 0 <= j < i ==> tasks[j] == Outbox.Snapshot(QueueOf(t.outbox, map[], now), entries[j])
    {
      var entry := t.outbox[entries[i]];
      tasks := tasks + [Outbox.Worker(entries[i], entry.target, entry.body, entry.attempts, now)];
    }
    assert (set i | 0 <= i < |tasks| :: tasks[i].entry) == set id | id in entries;
  }

  /** How a worker task's attempt ends: `lookup` fails on a database error, and
      `answered` says whether the peer acknowledged. */
  function AttemptEvent(task: Outbox.Task, lookup: Result<bool>, answered: bool): Outbox.Event {
    if task.body.Malformed? then Outbox.Undecodable(0)
    else
      match lookup
      case Err => Outbox.Vanish(0)
      case Ok(known) => if known && answered then Outbox.Succeed(0) else Outbox.Fail(0)
  }

  /** No entry but `id` differs, and none is added or dropped. */
  ghost predicate OnlyEntry(a: map<Id, Outbox.Entry>, b: map<Id, Outbox.Entry>, id: Id) {
    b.Keys == a.Keys && forall x :: x in a && x != id ==> b[x] == a[x]
  }

  /** A worker task's attempt writes what the queue model's event writes: an entry is
      marked delivered when the lookup worked, the peer is known and it answered; it is
      left alone when the lookup failed; anything else counts as one more failure. */
  method WorkerAttempt(t: Database, task: Outbox.Task, lookupFails: bool, answered: bool, now: Time)
    requires task.Worker?
    modifies t`outbox
    ensures t.outbox == Outbox.Outcome(
      QueueOf(old(t.outbox), map[0 := task], now),
      AttemptEvent(task, if lookupFails then Err else Ok(task.target in t.peers), answered))
    ensures OnlyEntry(old(t.outbox), t.outbox, task.entry)
    ensures task.entry in old(t.outbox) ==>
      var e, e' := old(t.outbox)[task.entry], t.outbox[task.entry];
      var delivered := task.target in t.peers && answered;
      && (task.body.Malformed? ==> e' == e.(status := Outbox.Failed, attempts := 10, lastAttempt := Some(now)))
      && (task.body.Request? && lookupFails ==> e' == e)
      && (task.body.Request? && !lookupFails && delivered ==>
        e' == e.(status := Outbox.Delivered, lastAttempt := Some(now)))
      && (task.body.Request? && !lookupFails && !delivered && task.seen >= 9 ==>
        e' == e.(status := Outbox.Failed, attempts := task.seen + 1, lastAttempt := Some(now)))
      && (task.body.Request? && !lookupFails && !delivered && task.seen < 9 ==>
        e' == e.(attempts := task.seen + 1, lastAttempt := Some(now),
                 nextAttempt := now + Outbox.Backoff(task.seen + 1) * SECOND))
  {
    if task.body.Malformed? {
      t.RecordOutboxFailure(task.entry, Outbox.MAX_ATTEMPTS, Outbox.MAX_ATTEMPTS, now);
      return;
    }
    if lookupFails {
      return;
    }
    var node := t.GetFederationNode(task.target);
    if node == None {
      t.RecordOutboxFailure(task.entry, task.seen + 1, Outbox.MAX_ATTEMPTS, now);
      return;
    }
    if answered {
      t.MarkOutboxDelivered(task.entry, now);
    } else {
      t.RecordOutboxFailure(task.entry, task.seen + 1, Outbox.MAX_ATTEMPTS, now);
    }
  }

  /** The task spawned with a message: its failure is left to the worker. */
  method ImmediateAttempt(t: Database, task: Outbox.Task, answered: bool, now: Time)
    requires task.Immediate? && task.body.Request?
    modifies t`outbox
    ensures t.outbox == Outbox.Outcome(
      QueueOf(old(t.outbox), map[0 := task], now), if answered then Outbox.Succeed(0) else Outbox.Fail(0))
    ensures OnlyEntry(old(t.outbox), t.outbox, task.entry)
    ensures task.entry in old(t.outbox) ==>
      var e := old(t.outbox)[task.entry];
      t.outbox[task.entry] == if answered then e.(status := Outbox.Delivered, lastAttempt := Some(now)) else e
  {
    if answered {
      t.MarkOutboxDelivered(task.entry, now);
    }
  }

  // ----- POST /messages -----

  datatype SendReply = Stored | Queued(task: Outbox.Task) | Refused

  /** The message is addressed to user `u` of another node `n`. */
  ghost predicate GoesTo(thisNode: NodeId, msg: Outgoing, u: string, n: NodeId) {
    msg.toAddress == Some(Codec.Address(u, n)) && Codec.Free(n, '@') && n != thisNode
  }

  /** The message has no address, one without '@', or one of this node. */
  ghost predicate StaysHere(thisNode: NodeId, msg: Outgoing) {
    || msg.toAddress == None || Codec.Free(msg.toAddress.value, '@')
    || exists u :: msg.toAddress == Some(Codec.Address(u, thisNode)) && Codec.Free(thisNode, '@')
  }

  /** A message goes where its parsed address says, and nowhere else. */
  lemma ParsedGoes(thisNode: NodeId, msg: Outgoing, u: string, n: NodeId)
    requires msg.toAddress.Some? && Codec.ParseFederatedAddress(msg.toAddress.value) == Some((u, n))
    ensures forall v, m :: GoesTo(thisNode, msg, v, m) <==> v == u && m == n && n != thisNode
    ensures StaysHere(thisNode, msg) <==> n == thisNode
  {
    Codec.ParseThenFormat(msg.toAddress.value);
    forall v, m | Codec.Free(m, '@') && Codec.Address(v, m) == Codec.Address(u, n) ensures v == u && m == n {
      Codec.AddressInjective(u, n, v, m);
    }
    assert Codec.Address(u, n)[|u|] == '@';
  }

  lemma UnparsedStays(thisNode: NodeId, msg: Outgoing)
    requires msg.toAddress.Some? ==> Codec.ParseFederatedAddress(msg.toAddress.value) == None
    ensures StaysHere(thisNode, msg) && forall u, n :: !GoesTo(thisNode, msg, u, n)
  {
    forall u, n | GoesTo(thisNode, msg, u, n) ensures false {
      Codec.ParseAddress(u, n);
    }
  }

  /** A cached peer that is not blocked, or what the registry tells about it, which is
      then cached; missing fields of a registry record become empty. */
  method ResolveNode(t: Database, node: NodeId, registry: NodeAuth.Registry) returns (r: Option<NodeAuth.Peer>)
    modifies t`peers
    ensures node in old(t.peers) ==>
      t.peers == old(t.peers) && r == if old(t.peers)[node].blocked then None else Some(old(t.peers)[node])
    ensures node !in old(t.peers) && !registry.Record? ==> t.peers == old(t.peers) && r == None
    ensures node !in old(t.peers) && registry.Record? ==>
      && r.Some? && t.peers == old(t.peers)[node := r.value] && !r.value.blocked
      && r.value.apiUrl == (if registry.apiUrl.Some? then registry.apiUrl.value else "")
      && r.value.key == (if registry.key.Some? then registry.key.value else NodeAuth.BadKey)
  {
    var cached := t.GetFederationNode(node);
    if cached.Some? {
      return if cached.value.blocked then None else cached;
    }
    match registry {
      case Record(url, key) =>
        var peer := t.UpsertFederationNode(node, match url case None => "" case Some(u) => u,
                                           match key case None => NodeAuth.BadKey case Some(k) => k);
        r := Some(peer);
      case _ => r := None;
    }
  }

  /** Every message either stays here or goes to one user of one other node. */
  lemma GoesOrStays(thisNode: NodeId, msg: Outgoing)
    ensures StaysHere(thisNode, msg) <==> !exists u, n :: GoesTo(thisNode, msg, u, n)
    ensures forall u, n, v, m :: GoesTo(thisNode, msg, u, n) && GoesTo(thisNode, msg, v, m) ==> u == v && n == m
  {
    if msg.toAddress.Some? && Codec.ParseFederatedAddress(msg.toAddress.value).Some? {
      var (u, n) := Codec.ParseFederatedAddress(msg.toAddress.value).value;
      ParsedGoes(thisNode, msg, u, n);
      assert GoesTo(thisNode, msg, u, n) <==> n != thisNode;
    } else {
      UnparsedStays(thisNode, msg);
    }
  }

  /** The first `n` items, which are insertable, were added as undelivered rows, and
      nothing else was. */
  ghost predicate StoredHere(
    db: Db, db': Db, device: Id, owner: Id, msg: Outgoing, uuid: nat -> Id, now: Time, n: nat)
    requires n <= |msg.items|
  {
    && Insertable(db, device, owner, msg, uuid, n)
    && db' == db.(messages := db'.messages) && RowsPersist(db.messages, db'.messages)
    && (forall i :: 0 <= i < n ==>
      && uuid(i) in db'.messages
      && db'.messages[uuid(i)] == Message(
        Key(msg.logical, msg.items[i].toDevice), msg.chat, owner, device, msg.toUser,
        msg.items[i].header, msg.items[i].ciphertext, now, None))
    && (forall m :: m in db'.messages ==> m in db.messages || exists i :: 0 <= i < n && m == uuid(i))
  }

  /** A message for another node is durably queued, due at once, before anything is
      sent, and leaves the message table alone; any other message is stored here and
      leaves the queue alone. */
  method SendMessage(
    t: Database, thisNode: NodeId, device: Id, owner: Id, pubkey: string, msg: Outgoing,
    registry: NodeAuth.Registry, uuid: nat -> Id, now: Time) returns (reply: SendReply, ghost done: nat)
    requires t.Valid()
    modifies t`messages, t`outbox, t`peers
    ensures t.Valid()
    ensures forall u, n :: GoesTo(thisNode, msg, u, n) ==>
      && t.messages == old(t.messages) && t.peers - {n} == old(t.peers) - {n}
      && (reply == Refused <==>
        || owner !in t.users || uuid(0) in old(t.outbox)
        || (if n in old(t.peers) then old(t.peers)[n].blocked else !registry.Record?))
      && (reply == Refused ==> t.outbox == old(t.outbox))
      && (reply != Refused ==>
        var payload := Payload(msg.logical, t.users[owner].username + "@" + thisNode, device, pubkey, u, msg.items);
        && reply == Queued(Outbox.Immediate(uuid(0), n, Outbox.Request(payload)))
        && t.outbox == old(t.outbox)[uuid(0) := Outbox.Entry(
          n, msg.logical, Outbox.Request(payload), 0, now, None, Outbox.Pending)]
        && Outbox.Due(t.outbox, now, uuid(0)))
    ensures StaysHere(thisNode, msg) ==>
      && t.outbox == old(t.outbox) && t.peers == old(t.peers) && done <= |msg.items|
      && StoredHere(old(t.Tables()), t.Tables(), device, owner, msg, uuid, now, done)
      && reply == (if done == |msg.items| then Stored else Refused)
      && (done < |msg.items| ==> !Insertable(old(t.Tables()), device, owner, msg, uuid, done + 1))
  {
    done := 0;
    if msg.toAddress.Some? {
      var address := Codec.ParseFederatedAddress(msg.toAddress.value);
      if address.Some? {
        ParsedGoes(thisNode, msg, address.value.0, address.value.1);
        if address.value.1 != thisNode {
          reply := HandleFederatedMessage(
            t, thisNode, device, owner, pubkey, msg, address.value.0, address.value.1, registry, uuid(0), now);
          return;
        }
      } else {
        UnparsedStays(thisNode, msg);
      }
    }
    reply, done := DeliverLocally(t, device, owner, msg, uuid, now);
  }

  method DeliverLocally(t: Database, device: Id, owner: Id, msg: Outgoing, uuid: nat -> Id, now: Time)
    returns (reply: SendReply, ghost done: nat)
    requires t.Valid()
    modifies t`messages
    ensures t.Valid() && done <= |msg.items| && reply == (if done == |msg.items| then Stored else Refused)
    ensures StoredHere(old(t.Tables()), t.Tables(), device, owner, msg, uuid, now, done)
    ensures done < |msg.items| ==> !Insertable(old(t.Tables()), device, owner, msg, uuid, done + 1)
  {
    var ok;
    ok, done := t.InsertMessage(device, owner, msg, uuid, now);
    reply := if ok then Stored else Refused;
  }

  method HandleFederatedMessage(
    t: Database, thisNode: NodeId, device: Id, owner: Id, pubkey: string, msg: Outgoing, to: string, node: NodeId,
    registry: NodeAuth.Registry, uuid: Id, now: Time) returns (reply: SendReply)
    modifies t`outbox, t`peers
    ensures t.peers - {node} == old(t.peers) - {node}
    ensures reply == Refused <==>
      || owner !in t.users || uuid in old(t.outbox)
      || (if node in old(t.peers) then old(t.peers)[node].blocked else !registry.Record?)
    ensures reply == Refused ==> t.outbox == old(t.outbox)
    ensures reply != Refused ==>
      var payload := Payload(msg.logical, t.users[owner].username + "@" + thisNode, device, pubkey, to, msg.items);
      && reply == Queued(Outbox.Immediate(uuid, node, Outbox.Request(payload)))
      && t.outbox == old(t.outbox)[uuid := Outbox.Entry(
        node, msg.logical, Outbox.Request(payload), 0, now, None, Outbox.Pending)]
      && Outbox.Due(t.outbox, now, uuid)
  {
    if owner !in t.users {
      return Refused;
    }
    var username := t.users[owner].username;
    var peer := ResolveNode(t, node, registry);
    if peer == None {
      return Refused;
    }
    var payload := Payload(msg.logical, username + "@" + thisNode, device, pubkey, to, msg.items);
    var entry := t.EnqueueOutbox(uuid, node, msg.logical, payload, now);
    if entry.Err? {
      return Refused;
    }
    reply := Queued(Outbox.Immediate(entry.value, node, Outbox.Request(payload)));
  }

  // ----- POST /sessions/confirm -----

  /** The outcome is that of an uninterrupted confirmation, and success means the
      pair's chat and session exist and the pending session is gone. */
  method ConfirmSession(t: Database, job: Sessions.Confirm, uuid: Id) returns (created: bool)
    requires t.Valid()
    modifies t`chats, t`sessions, t`pending
    ensures var (end, db) := Sessions.Alone(job, Sessions.Loading, old(t.Tables()), uuid, 5);
      t.Tables() == db && (created <==> end.Confirmed?)
    ensures t.Valid() && (created ==> Sessions.Outcome(job, old(t.Tables()), t.Tables()))
    ensures !created ==> t.sessions == old(t.sessions) && t.pending == old(t.pending)
    ensures uuid !in old(t.chats) && uuid !in old(t.sessions) ==>
      (created <==>
        && job.pending in old(t.pending) && old(t.pending)[job.pending].recipient == job.device
        && job.sender in t.devices && job.receiver in t.devices
        && t.devices[job.sender].owner != t.devices[job.receiver].owner)
  {
    ghost var db0 := t.Tables();
    ghost var end;
    created, end := ConfirmSteps(t, job, uuid);
    Sessions.AloneOutcome(job, db0, uuid, 5);
    if uuid !in db0.chats && uuid !in db0.sessions {
      Sessions.AloneConfirmsIff(job, db0, uuid);
    }
  }

  method ConfirmSteps(t: Database, job: Sessions.Confirm, uuid: Id) returns (created: bool, ghost end: Sessions.Pc)
    requires t.Valid()
    modifies t`chats, t`sessions, t`pending
    ensures Sessions.Alone(job, Sessions.Loading, old(t.Tables()), uuid, 5) == (end, t.Tables())
    ensures created <==> end.Confirmed?
    ensures !created ==> t.sessions == old(t.sessions) && t.pending == old(t.pending)
  {
    ghost var db0 := t.Tables();
    Sessions.AloneSnoc(job, Sessions.Loading, db0, uuid, 0);
    var found := t.GetPendingSessionById(job.pending, job.device);
    if found == None {
      Sessions.AloneEnds(job, db0, uuid, 1, 5);
      return false, Sessions.Stopped;
    }
    ghost var k;
    created, end, k := ChatAndSession(t, job, uuid);
    Sessions.AloneSplit(job, Sessions.Loading, db0, uuid, 1, k);
    Sessions.AloneEnds(job, db0, uuid, k + 1, 5);
  }

  /** The rest of a confirmation whose pending session was found. */
  method ChatAndSession(t: Database, job: Sessions.Confirm, uuid: Id)
    returns (created: bool, ghost end: Sessions.Pc, ghost k: nat)
    requires t.Valid()
    modifies t`chats, t`sessions, t`pending
    ensures k <= 4 && Sessions.Alone(job, Sessions.Finding, old(t.Tables()), uuid, k) == (end, t.Tables())
    ensures end == if created then Sessions.Confirmed else Sessions.Stopped
    ensures !created ==> t.sessions == old(t.sessions) && t.pending == old(t.pending)
  {
    ghost var db0 := t.Tables();
    ConfirmChat(job, db0, uuid);
    k := if Sessions.Advance(job, Sessions.Finding, db0, uuid).0.Opening? then 2 else 1;
    var chat := t.GetOrCreateChatId(uuid, job.sender, job.receiver);
    if chat.Err? {
      return false, Sessions.Stopped, k;
    }
    Sessions.AloneSplit(job, Sessions.Finding, db0, uuid, k, 2);
    created, end := LinkSession(t, job, chat.value, uuid);
    k := k + 2;
  }

  method LinkSession(t: Database, job: Sessions.Confirm, chat: Id, uuid: Id)
    returns (linked: bool, ghost end: Sessions.Pc)
    requires t.Valid()
    modifies t`sessions, t`pending
    ensures Sessions.Alone(job, Sessions.Linking(chat), old(t.Tables()), uuid, 2) == (end, t.Tables())
    ensures end == if linked then Sessions.Confirmed else Sessions.Stopped
    ensures !linked ==> t.sessions == old(t.sessions) && t.pending == old(t.pending)
  {
    ghost var db0 := t.Tables();
    Sessions.AloneSnoc(job, Sessions.Linking(chat), db0, uuid, 0);
    Sessions.AloneSnoc(job, Sessions.Linking(chat), db0, uuid, 1);
    linked := t.InsertOrUpdateSession(uuid, chat, job.sender, job.receiver);
    if linked {
      t.DeletePendingSession(job.pending);
    }
    end := if linked then Sessions.Confirmed else Sessions.Stopped;
  }

  /** One or two statements of a confirmation bring it to the chat routine's result. */
  lemma ConfirmChat(job: Sessions.Confirm, db: Db, uuid: Id)
    ensures var k := if Sessions.Advance(job, Sessions.Finding, db, uuid).0.Opening? then 2 else 1;
      var (r, db') := GetOrCreate(db, Chats.ByDevices(job.sender, job.receiver), uuid);
      Sessions.Alone(job, Sessions.Finding, db, uuid, k) ==
        (match r case Ok(chat) => Sessions.Linking(chat) case Err => Sessions.Stopped, db')
  {
    Sessions.AloneSnoc(job, Sessions.Finding, db, uuid, 0);
    Sessions.AloneSnoc(job, Sessions.Finding, db, uuid, 1);
  }

  // ----- Node authentication -----

  method ResolvePeer(t: Database, node: NodeId, registry: NodeAuth.Registry) returns (r: Option<NodeAuth.Peer>)
    modifies t`peers
    ensures r == NodeAuth.Resolve(old(t.peers), node, registry)
    ensures t.peers == match r case None => old(t.peers) case Some(peer) => old(t.peers)[node := peer]
  {
    r := t.GetFederationNode(node);
    if r == None && registry.Record? && registry.apiUrl.Some? && registry.key.Some? {
      var peer := t.UpsertFederationNode(node, registry.apiUrl.value, registry.key.value);
      r := Some(peer);
    }
  }

  method FromRequestParts(
    t: Database, req: NodeAuth.HttpRequest, registry: NodeAuth.Registry, clock: Time, at: Time)
    returns (verdict: NodeAuth.Verdict)
    modifies t`peers, t`nonces
    ensures (verdict, NodeAuth.State(t.peers, t.nonces)) ==
      NodeAuth.Authenticate(NodeAuth.State(old(t.peers), old(t.nonces)), req, registry, clock, at)
    ensures verdict.Authenticated? ==>
      && NodeAuth.HasHeaders(req.headers) && verdict.node == req.headers.nodeId.value
      && (verdict.node, req.headers.nonce.value) !in old(t.nonces)
      && t.nonces == old(t.nonces)[(verdict.node, req.headers.nonce.value) := at]
    ensures !verdict.Authenticated? ==> t.nonces == old(t.nonces)
  {
    var h := req.headers;
    if h.nodeId == None || h.timestamp == None || h.nonce == None || h.signature == None {
      return NodeAuth.MissingHeader;
    }
    var ts := Codec.ParseI64(h.timestamp.value);
    if ts == None {
      return NodeAuth.BadTimestamp;
    }
    var age := clock / SECOND - ts.value;
    if (if age < 0 then -age else age) > 60 {
      return NodeAuth.OutsideWindow;
    }
    var peer := ResolvePeer(t, h.nodeId.value, registry);
    if peer == None {
      return NodeAuth.RegistryError(registry);
    }
    if peer.value.blocked {
      return NodeAuth.Blocked;
    }
    var canonical := req.verb + "\n" + req.path + "\n" + h.timestamp.value + "\n" + h.nonce.value;
    if h.signature.value.Undecodable? {
      return NodeAuth.BadSignature;
    }
    if peer.value.key.BadKey? {
      return NodeAuth.BadPeerKey;
    }
    if !NodeAuth.Verifies(peer.value.key.id, canonical, h.signature.value) {
      return NodeAuth.InvalidSignature;
    }
    var isFresh := t.ClaimNonce(h.nodeId.value, h.nonce.value, at);
    if !isFresh {
      return NodeAuth.ReplayedNonce;
    }
    verdict := NodeAuth.Authenticated(h.nodeId.value, peer.value);
  }
}
