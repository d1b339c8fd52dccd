/** When a delivery gets an answer, and that a run left alone gets one whenever any
    schedule could, whatever runs came before it. */
module Uninterrupted {
  import opened Schema
  import opened ReceivePipeline
  import opened Confluence

  /** The identifier generated for the statement at `pc` collides with no row of its table. */
  ghost predicate Unused(job: Job, pc: Pc, db: Db, uuid: Id) {
    match pc
    case Shadowing(_) => uuid !in db.users
    case Opening(_, _) => uuid !in db.chats
    case Storing(_, _, _, n, _) => n < |job.body.items| ==> uuid !in db.messages
    case _ => true
  }

  ghost predicate Here(job: Job, db0: Db, db: Db) {
    Valid(db0) && Valid(db) && Extends(db0, db) && Between(job, db0, db)
  }

  // ----- What the tables must be like beforehand -----

  /** The local user the request names, who is not known under the sender's address. */
  ghost predicate Addressee(job: Job, db0: Db, r: Id) {
    IsRecipient(job, db0, r) && db0.users[r].address != Some(job.body.fromAddress)
  }

  /** The sender's name is not taken by anybody else. */
  ghost predicate NameFree(job: Job, db0: Db) {
    forall v :: v in db0.users && db0.users[v].username == Shadow(job).username ==>
      db0.users[v].address == Some(job.body.fromAddress)
  }

  /** The sender's device is known, or at least its key is not another device of the sender. */
  ghost predicate DeviceFree(job: Job, db0: Db) {
    job.body.fromDevice in db0.devices ||
    forall e :: e in db0.devices && db0.devices[e].pubkey == job.body.fromPubkey ==>
      !SenderOk(job, db0, db0.devices[e].owner)
  }

  ghost predicate TargetsKnown(job: Job, db0: Db) {
    forall i :: 0 <= i < |job.body.items| ==>
      job.body.items[i].toDevice in db0.devices || job.body.items[i].toDevice == job.body.fromDevice
  }

  ghost predicate Deliverable(job: Job, db0: Db) {
    (exists r :: Addressee(job, db0, r)) && NameFree(job, db0) && DeviceFree(job, db0) && TargetsKnown(job, db0)
  }

  lemma DeliveredHadAddressee(job: Job, db0: Db, t: Db)
    requires Delivers(job, db0, t)
    ensures exists r :: Addressee(job, db0, r)
  {
    var r, s, c :| Finished(job, db0, t, r, s, c);
    assert t.chats[c].userA < t.chats[c].userB;
    assert r in t.users && t.users[r].address == db0.users[r].address;
    assert Addressee(job, db0, r);
  }

  lemma DeliveredHadNameFree(job: Job, db0: Db, t: Db)
    requires Delivers(job, db0, t)
    ensures NameFree(job, db0)
  {
    var r, s, c :| Finished(job, db0, t, r, s, c);
    forall v | v in db0.users && db0.users[v].username == Shadow(job).username
      ensures db0.users[v].address == Some(job.body.fromAddress)
    {
      assert v in t.users && UserBetween(job, db0, v, t.users[v]);
    }
  }

  lemma DeliveredHadDeviceFree(job: Job, db0: Db, t: Db)
    requires Delivers(job, db0, t)
    ensures DeviceFree(job, db0)
  {
    var r, s, c :| Finished(job, db0, t, r, s, c);
    var d := job.body.fromDevice;
    assert d in t.devices && (d in db0.devices || NewDevice(job, t, d, t.devices[d]));
    forall e | e in db0.devices && db0.devices[e].pubkey == job.body.fromPubkey
      && SenderOk(job, db0, db0.devices[e].owner)
      ensures d in db0.devices
    {
      assert e in t.devices && t.devices[e] == db0.devices[e];
    }
  }

  lemma DeliveredHadTargets(job: Job, db0: Db, t: Db)
    requires Delivers(job, db0, t)
    ensures TargetsKnown(job, db0)
  {
    var r, s, c :| Finished(job, db0, t, r, s, c);
    forall i | 0 <= i < |job.body.items| && job.body.items[i].toDevice !in db0.devices
      ensures job.body.items[i].toDevice == job.body.fromDevice
    {
      assert Stored(t, ItemKey(job.body, i));
      var m :| m in t.messages && t.messages[m].key == ItemKey(job.body, i);
      assert RefsOk(t, t.messages[m]);
      assert NewDevice(job, t, job.body.items[i].toDevice, t.devices[job.body.items[i].toDevice]);
    }
  }

  /** What was delivered was deliverable. */
  lemma DeliveredWasDeliverable(job: Job, db0: Db, t: Db)
    requires Delivers(job, db0, t)
    ensures Deliverable(job, db0)
  {
    DeliveredHadAddressee(job, db0, t);
    DeliveredHadNameFree(job, db0, t);
    DeliveredHadDeviceFree(job, db0, t);
    DeliveredHadTargets(job, db0, t);
  }

  // ----- No statement of a deliverable request is refused -----

  lemma AddresseeUntouched(job: Job, db0: Db, db: Db, r: Id)
    requires Extends(db0, db) && UsersBetween(job, db0, db.users) && Addressee(job, db0, r)
    ensures r in db.users && db.users[r] == db0.users[r]
  {
    assert UserBetween(job, db0, r, db.users[r]);
  }

  lemma ResolvesToAddressee(job: Job, db0: Db, db: Db)
    requires UniqueNames(db.users) && Extends(db0, db) && UsersBetween(job, db0, db.users)
    requires exists r :: Addressee(job, db0, r)
    ensures exists u :: LocalNamed(db, u, job.body.toUser)
    ensures forall u :: LocalNamed(db, u, job.body.toUser) ==> Addressee(job, db0, u)
  {
    var r :| Addressee(job, db0, r);
    AddresseeUntouched(job, db0, db, r);
    assert LocalNamed(db, r, job.body.toUser);
  }

  lemma ShadowAccepted(job: Job, db0: Db, db: Db, uuid: Id)
    requires UniqueAddresses(db.users) && UsersBetween(job, db0, db.users) && NameFree(job, db0) && uuid !in db.users
    ensures Accepts(db, ShadowStmt(job, uuid))
  {
    forall v | v in db.users && db.users[v].username == Shadow(job).username
      ensures db.users[v].address == Some(job.body.fromAddress)
    {
      assert UserBetween(job, db0, v, db.users[v]);
    }
  }

  lemma DeviceAccepted(job: Job, db0: Db, db: Db, s: Id)
    requires DevicesOk(db0) && Extends(db0, db) && DevicesBetween(job, db0, db, db.devices)
    requires DeviceFree(job, db0) && SenderOk(job, db, s)
    ensures Accepts(db, UpsertShadowDevice(job.body.fromDevice, s, job.body.fromPubkey))
  {
    var d := job.body.fromDevice;
    forall e | e in db.devices && db.devices[e] == Device(s, job.body.fromPubkey) ensures d in db.devices {
      if e in db0.devices {
        assert SenderOk(job, db0, s);
      } else {
        assert NewDevice(job, db, e, db.devices[e]);
      }
    }
  }

  lemma OpenAccepted(job: Job, db0: Db, db: Db, uuid: Id, r: Id, s: Id)
    requires Extends(db0, db) && UsersBetween(job, db0, db.users)
    requires Addressee(job, db0, r) && SenderOk(job, db, s)
    requires uuid !in db.chats && !ChatKnown(db, Ordered(s, r))
    ensures Accepts(db, InsertChat(uuid, Ordered(s, r).userA, Ordered(s, r).userB))
  {
    AddresseeUntouched(job, db0, db, r);
  }

  lemma ItemAccepted(job: Job, db0: Db, db: Db, pc: Pc, uuid: Id, now: Time)
    requires Extends(db0, db) && TargetsKnown(job, db0) && uuid !in db.messages
    requires pc.Storing? && pc.next < |job.body.items| && Placed(job, db, pc.recipient, pc.sender, pc.chat)
    ensures Accepts(db, InsertFederatedMessage(uuid, ItemRow(job.body, pc.next, pc.recipient, pc.sender, pc.chat, now)))
  {
  }

  ghost predicate OnCourse(job: Job, db0: Db, db: Db, pc: Pc) {
    && !pc.Stopped?
    && (!pc.Resolving? ==> Addressee(job, db0, pc.recipient))
    && (pc.Opening? ==> !ChatKnown(db, Ordered(pc.sender, pc.recipient)))
  }

  lemma WriteAccepted(job: Job, db0: Db, db: Db, pc: Pc, uuid: Id, now: Time)
    requires Deliverable(job, db0) && Here(job, db0, db) && PcOk(job, pc, db) && OnCourse(job, db0, db, pc)
    requires Unused(job, pc, db, uuid) && Write(job, pc, uuid, now).Some?
    ensures Accepts(db, Write(job, pc, uuid, now).value)
  {
    match pc
    case Shadowing(_) => ShadowAccepted(job, db0, db, uuid);
    case Registering(_, s) => DeviceAccepted(job, db0, db, s);
    case Opening(r, s) => OpenAccepted(job, db0, db, uuid, r, s);
    case Storing(_, _, _, _, _) => ItemAccepted(job, db0, db, pc, uuid, now);
  }

  /** A run is stopped only by a missing recipient or a refused write. */
  lemma StoppedBy(job: Job, db: Db, pc: Pc, uuid: Id, now: Time)
    requires !pc.Stopped? && Advance(job, pc, db, uuid, now).0.Stopped?
    ensures pc.Resolving? ==> forall u :: !LocalNamed(db, u, job.body.toUser)
    ensures !pc.Resolving? ==> Write(job, pc, uuid, now).Some? && !Accepts(db, Write(job, pc, uuid, now).value)
  {
  }

  /** No statement of a run left alone is refused when the request is deliverable. */
  lemma NotRefused(job: Job, db0: Db, db: Db, pc: Pc, uuid: Id, now: Time)
    requires Deliverable(job, db0) && Here(job, db0, db) && PcOk(job, pc, db) && OnCourse(job, db0, db, pc)
    requires Unused(job, pc, db, uuid)
    ensures !Advance(job, pc, db, uuid, now).0.Stopped?
  {
    if pc.Resolving? {
      ResolvesToAddressee(job, db0, db);
    } else if Write(job, pc, uuid, now).Some? {
      WriteAccepted(job, db0, db, pc, uuid, now);
    }
    if Advance(job, pc, db, uuid, now).0.Stopped? {
      StoppedBy(job, db, pc, uuid, now);
    }
  }

  lemma StepHere(job: Job, db0: Db, db: Db, pc: Pc, uuid: Id, now: Time)
    requires Here(job, db0, db) && LocalsOk(job, db0, db, pc)
    ensures var (pc', db') := Advance(job, pc, db, uuid, now); Here(job, db0, db') && LocalsOk(job, db0, db', pc')
  {
    AdvanceOk(job, pc, db, uuid, now);
    WorkKeepsBetween(job, db0, db, pc, uuid, now);
    WorkKeepsLocals(job, db0, db, pc, uuid, now);
    ExtendsTransitive(db0, db, Advance(job, pc, db, uuid, now).1);
  }

  /** Statements still to execute. */
  function Remaining(job: Job, pc: Pc): nat {
    match pc
    case Resolving => |job.body.items| + 6
    case Shadowing(_) => |job.body.items| + 5
    case Registering(_, _) => |job.body.items| + 4
    case Looking(_, _) => |job.body.items| + 3
    case Opening(_, _) => |job.body.items| + 2
    case Storing(_, _, _, n, _) => if n <= |job.body.items| then |job.body.items| + 1 - n else 1
    case Replied(_, _, _, _) => 0
    case Stopped => 0
  }

  lemma StepOnCourse(job: Job, db0: Db, db: Db, pc: Pc, uuid: Id, now: Time)
    requires OnCourse(job, db0, db, pc) && !Advance(job, pc, db, uuid, now).0.Stopped?
    requires forall u :: LocalNamed(db, u, job.body.toUser) ==> Addressee(job, db0, u)
    ensures var (pc', db') := Advance(job, pc, db, uuid, now);
      && OnCourse(job, db0, db', pc')
      && (pc.Replied? || Remaining(job, pc') < Remaining(job, pc))
  {
  }

  lemma StepGoesOn(job: Job, db0: Db, db: Db, pc: Pc, uuid: Id, now: Time)
    requires Deliverable(job, db0) && Here(job, db0, db) && PcOk(job, pc, db) && OnCourse(job, db0, db, pc)
    requires Unused(job, pc, db, uuid)
    ensures var (pc', db') := Advance(job, pc, db, uuid, now);
      && OnCourse(job, db0, db', pc')
      && (pc.Replied? || Remaining(job, pc') < Remaining(job, pc))
  {
    NotRefused(job, db0, db, pc, uuid, now);
    ResolvesToAddressee(job, db0, db);
    StepOnCourse(job, db0, db, pc, uuid, now);
  }

  /** A run with no other statement between its own. */
  ghost function Alone(job: Job, pc: Pc, db: Db, uuids: seq<Id>, now: Time): (r: (Pc, Db))
    decreases |uuids|
  {
    if uuids == [] then (pc, db)
    else
      var (pc', db') := Advance(job, pc, db, uuids[0], now);
      Alone(job, pc', db', uuids[1..], now)
  }

  /** No generated identifier collides with a row. */
  ghost predicate Lucky(job: Job, pc: Pc, db: Db, uuids: seq<Id>, now: Time)
    decreases |uuids|
  {
    uuids == [] ||
    (Unused(job, pc, db, uuids[0]) &&
     var (pc', db') := Advance(job, pc, db, uuids[0], now);
     Lucky(job, pc', db', uuids[1..], now))
  }

  lemma {:induction false} AloneAnswers(job: Job, db0: Db, db: Db, pc: Pc, uuids: seq<Id>, now: Time)
    requires Deliverable(job, db0) && Here(job, db0, db) && LocalsOk(job, db0, db, pc) && OnCourse(job, db0, db, pc)
    requires Lucky(job, pc, db, uuids, now) && Remaining(job, pc) <= |uuids|
    ensures Alone(job, pc, db, uuids, now).0.Replied?
    decreases |uuids|
  {
    if uuids != [] {
      var next := Advance(job, pc, db, uuids[0], now);
      StepGoesOn(job, db0, db, pc, uuids[0], now);
      StepHere(job, db0, db, pc, uuids[0], now);
      AloneAnswers(job, db0, next.1, next.0, uuids[1..], now);
    }
  }

  /** However far it gets, it is not stopped. */
  lemma {:induction false} AloneGoesOn(job: Job, db0: Db, db: Db, pc: Pc, uuids: seq<Id>, now: Time)
    requires Deliverable(job, db0) && Here(job, db0, db) && LocalsOk(job, db0, db, pc) && OnCourse(job, db0, db, pc)
    requires Lucky(job, pc, db, uuids, now)
    ensures !Alone(job, pc, db, uuids, now).0.Stopped?
    decreases |uuids|
  {
    if uuids != [] {
      var next := Advance(job, pc, db, uuids[0], now);
      StepGoesOn(job, db0, db, pc, uuids[0], now);
      StepHere(job, db0, db, pc, uuids[0], now);
      AloneGoesOn(job, db0, next.1, next.0, uuids[1..], now);
    }
  }

  lemma {:induction false} LuckyAppend(job: Job, pc: Pc, db: Db, uuids: seq<Id>, more: seq<Id>, now: Time)
    requires Lucky(job, pc, db, uuids, now)
    requires var (pc', db') := Alone(job, pc, db, uuids, now); Lucky(job, pc', db', more, now)
    ensures Lucky(job, pc, db, uuids + more, now)
    decreases |uuids|
  {
    if uuids == [] {
      assert uuids + more == more;
    } else {
      assert (uuids + more)[0] == uuids[0] && (uuids + more)[1..] == uuids[1..] + more;
      var next := Advance(job, pc, db, uuids[0], now);
      LuckyAppend(job, next.0, next.1, uuids[1..], more, now);
    }
  }

  lemma LuckySnoc(job: Job, pc: Pc, db: Db, uuids: seq<Id>, uuid: Id, now: Time)
    ensures var (pc', db') := Alone(job, pc, db, uuids, now);
      Lucky(job, pc, db, uuids, now) && Unused(job, pc', db', uuid) ==> Lucky(job, pc, db, uuids + [uuid], now)
  {
    var end := Alone(job, pc, db, uuids, now);
    if Lucky(job, pc, db, uuids, now) && Unused(job, end.0, end.1, uuid) {
      OneLucky(job, end.0, end.1, uuid, now);
      LuckyAppend(job, pc, db, uuids, [uuid], now);
    }
  }

  lemma OneLucky(job: Job, pc: Pc, db: Db, uuid: Id, now: Time)
    ensures Lucky(job, pc, db, [uuid], now) <==> Unused(job, pc, db, uuid)
  {
    assert [uuid][1..] == [];
  }

  lemma {:induction false} AloneHere(job: Job, db0: Db, db: Db, pc: Pc, uuids: seq<Id>, now: Time)
    requires Here(job, db0, db) && LocalsOk(job, db0, db, pc)
    ensures Here(job, db0, Alone(job, pc, db, uuids, now).1)
    ensures LocalsOk(job, db0, Alone(job, pc, db, uuids, now).1, Alone(job, pc, db, uuids, now).0)
    decreases |uuids|
  {
    if uuids != [] {
      var next := Advance(job, pc, db, uuids[0], now);
      StepHere(job, db0, db, pc, uuids[0], now);
      AloneHere(job, db0, next.1, next.0, uuids[1..], now);
    }
  }

  lemma ScheduleHere(job: Job, db0: Db, n: nat, schedule: seq<Move>)
    requires Valid(db0)
    ensures Here(job, db0, Play(job, Start(db0, n), schedule).db)
  {
    StartOk(job, db0, n);
    PlayKeepsInv(job, db0, Start(db0, n), schedule);
  }

  lemma AloneDelivers(job: Job, db0: Db, db: Db, uuids: seq<Id>, now: Time)
    requires Here(job, db0, db) && Alone(job, Resolving, db, uuids, now).0.Replied?
    ensures Delivers(job, db0, Alone(job, Resolving, db, uuids, now).1)
  {
    AloneHere(job, db0, db, Resolving, uuids, now);
    ReplyFinishes(job, db0, Alone(job, Resolving, db, uuids, now).1, Alone(job, Resolving, db, uuids, now).0);
  }

  /** A request is answered by some run only if it was deliverable; and if it was, then
      after any schedule of runs, answered or not, a run left alone is answered. */
  lemma AnsweredIffDeliverable(job: Job, db0: Db, n: nat, schedule: seq<Move>, uuids: seq<Id>, now: Time)
    requires Valid(db0) && |job.body.items| + 6 <= |uuids|
    requires Lucky(job, Resolving, Play(job, Start(db0, n), schedule).db, uuids, now)
    ensures var z := Play(job, Start(db0, n), schedule);
      && (Answered(z) ==> Deliverable(job, db0))
      && (Alone(job, Resolving, z.db, uuids, now).0.Replied? <==> Deliverable(job, db0))
  {
    var z := Play(job, Start(db0, n), schedule);
    ScheduleHere(job, db0, n, schedule);
    if Answered(z) {
      ScheduleDelivers(job, db0, n, schedule);
      DeliveredWasDeliverable(job, db0, z.db);
    }
    if Deliverable(job, db0) {
      AloneAnswers(job, db0, z.db, Resolving, uuids, now);
    } else if Alone(job, Resolving, z.db, uuids, now).0.Replied? {
      AloneDelivers(job, db0, z.db, uuids, now);
      DeliveredWasDeliverable(job, db0, Alone(job, Resolving, z.db, uuids, now).1);
    }
  }

  /** If some schedule of a request gets an answer, then after any other schedule of it a
      run left alone gets one too, and leaves the same tables. */
  lemma RetryAnswers(
    job: Job, db0: Db, n: nat, schedule: seq<Move>, n': nat, before: seq<Move>, uuids: seq<Id>, now: Time)
    requires Valid(db0) && Answered(Play(job, Start(db0, n), schedule)) && |job.body.items| + 6 <= |uuids|
    requires Lucky(job, Resolving, Play(job, Start(db0, n'), before).db, uuids, now)
    ensures var (pc, db) := Alone(job, Resolving, Play(job, Start(db0, n'), before).db, uuids, now);
      pc.Replied? && NaturalState(db) == NaturalState(Play(job, Start(db0, n), schedule).db)
  {
    var t, z := Play(job, Start(db0, n), schedule).db, Play(job, Start(db0, n'), before).db;
    ScheduleDelivers(job, db0, n, schedule);
    DeliveredWasDeliverable(job, db0, t);
    AnsweredIffDeliverable(job, db0, n', before, uuids, now);
    ScheduleHere(job, db0, n', before);
    AloneDelivers(job, db0, z, uuids, now);
    DeliveryIsDetermined(job, db0, Alone(job, Resolving, z, uuids, now).1, t);
  }

  /** In particular any schedule that gets an answer leaves the tables of one run left
      alone from the start, which is answered too. */
  lemma SameAsUninterrupted(job: Job, db0: Db, n: nat, schedule: seq<Move>, uuids: seq<Id>, now: Time)
    requires Valid(db0) && Answered(Play(job, Start(db0, n), schedule))
    requires Lucky(job, Resolving, db0, uuids, now) && |job.body.items| + 6 <= |uuids|
    ensures var (pc, db) := Alone(job, Resolving, db0, uuids, now);
      pc.Replied? && NaturalState(db) == NaturalState(Play(job, Start(db0, n), schedule).db)
  {
    assert Play(job, Start(db0, 0), []).db == db0;
    RetryAnswers(job, db0, n, schedule, 0, [], uuids, now);
  }

  // ----- Identifiers that collide with nothing exist -----

  ghost predicate BelowAll(db: Db, k: Id) {
    Below(db.users.Keys, k) && Below(db.chats.Keys, k) && Below(db.messages.Keys, k)
  }

  lemma WriteBelow(db: Db, s: Stmt, k: Id)
    requires BelowAll(db, k)
    requires s.UpsertShadowUser? || s.UpsertShadowDevice? || s.InsertChat? || s.InsertFederatedMessage?
    requires s.id == k || s.UpsertShadowDevice?
    ensures BelowAll(Exec(db, s), k + 1)
  {
  }

  lemma StepBelow(job: Job, pc: Pc, db: Db, k: Id, now: Time)
    requires BelowAll(db, k)
    ensures BelowAll(Advance(job, pc, db, k, now).1, k + 1)
  {
    AdvanceIsWrite(job, pc, db, k, now);
    if Write(job, pc, k, now).Some? {
      WriteBelow(db, Write(job, pc, k, now).value, k);
    }
  }

  lemma {:induction false} LuckyFrom(job: Job, pc: Pc, db: Db, k: Id, n: nat, now: Time) returns (uuids: seq<Id>)
    requires BelowAll(db, k)
    ensures |uuids| == n && Lucky(job, pc, db, uuids, now)
    decreases n
  {
    uuids := [];
    if n > 0 {
      StepBelow(job, pc, db, k, now);
      var next := Advance(job, pc, db, k, now);
      var rest := LuckyFrom(job, next.0, next.1, k + 1, n - 1, now);
      uuids := [k] + rest;
      assert uuids[1..] == rest;
    }
  }

  lemma LuckyExists(job: Job, pc: Pc, db: Db, n: nat, now: Time) returns (uuids: seq<Id>)
    ensures |uuids| == n && Lucky(job, pc, db, uuids, now)
  {
    var k := Bound(db.users.Keys + db.chats.Keys + db.messages.Keys);
    uuids := LuckyFrom(job, pc, db, k, n, now);
  }

  /** A deliverable request is answered by a run left alone with identifiers that exist. */
  lemma AnswerExists(job: Job, db: Db, now: Time) returns (uuids: seq<Id>)
    requires Valid(db) && Deliverable(job, db)
    ensures Alone(job, Resolving, db, uuids, now).0.Replied?
  {
    uuids := LuckyExists(job, Resolving, db, |job.body.items| + 6, now);
    assert Play(job, Start(db, 0), []).db == db;
    AnsweredIffDeliverable(job, db, 0, [], uuids, now);
  }
}
