/** What one delivery handler answers when no other statement comes between its own:
    the tables it leaves, the status it reports, and what a repetition does. */
module SingleRun {
  import opened Schema
  import opened ReceivePipeline
  import opened Confluence
  import opened Uninterrupted
  import Codec

  datatype Reply = Ack(status: string) | NotFound | InternalError

  /** The response of a handler that ended at `pc`; `db0` are the tables it resolved the recipient in. */
  ghost function Response(job: Job, db0: Db, pc: Pc): Reply {
    match pc
    case Replied(_, _, _, anyNew) => Ack(if anyNew then "delivered" else "duplicate")
    case _ => if exists u :: LocalNamed(db0, u, job.body.toUser) then InternalError else NotFound
  }

  lemma {:induction false} AloneAppend(job: Job, pc: Pc, db: Db, uuids: seq<Id>, more: seq<Id>, now: Time)
    ensures Alone(job, pc, db, uuids + more, now) ==
      var (pc', db') := Alone(job, pc, db, uuids, now); Alone(job, pc', db', more, now)
    decreases |uuids|
  {
    if uuids == [] {
      assert uuids + more == more;
    } else {
      assert (uuids + more)[0] == uuids[0] && (uuids + more)[1..] == uuids[1..] + more;
      var (pc', db') := Advance(job, pc, db, uuids[0], now);
      AloneAppend(job, pc', db', uuids[1..], more, now);
    }
  }

  lemma AloneSnoc(job: Job, pc: Pc, db: Db, uuids: seq<Id>, uuid: Id, now: Time)
    ensures Alone(job, pc, db, uuids + [uuid], now) ==
      var (pc', db') := Alone(job, pc, db, uuids, now); Advance(job, pc', db', uuid, now)
  {
    AloneAppend(job, pc, db, uuids, [uuid], now);
    assert [uuid][1..] == [];
  }

  /** The rows of `db` that are not in `db0` were created at `now` and are undelivered. */
  ghost predicate NewRowsAreNow(db0: Db, db: Db, now: Time) {
    forall m :: m in db.messages && m !in db0.messages ==>
      db.messages[m].createdAt == now && db.messages[m].deliveredAt == None
  }

  lemma {:induction false} AloneIsNow(job: Job, pc: Pc, db: Db, uuids: seq<Id>, now: Time)
    ensures NewRowsAreNow(db, Alone(job, pc, db, uuids, now).1, now)
    decreases |uuids|
  {
    if uuids != [] {
      var (pc', db') := Advance(job, pc, db, uuids[0], now);
      AdvanceIsWrite(job, pc, db, uuids[0], now);
      AloneIsNow(job, pc', db', uuids[1..], now);
      AloneKeepsMessages(job, pc', db', uuids[1..], now);
    }
  }

  /** A run marks no row delivered. */
  lemma {:induction false} AloneKeepsMessages(job: Job, pc: Pc, db: Db, uuids: seq<Id>, now: Time)
    ensures RowsPersist(db.messages, Alone(job, pc, db, uuids, now).1.messages)
    decreases |uuids|
  {
    if uuids != [] {
      var (pc', db') := Advance(job, pc, db, uuids[0], now);
      AdvanceIsWrite(job, pc, db, uuids[0], now);
      AloneKeepsMessages(job, pc', db', uuids[1..], now);
    }
  }

  // ----- The status tells whether the table grew -----

  ghost predicate Told(db0: Db, db: Db, pc: Pc) {
    match pc
    case Storing(_, _, _, _, anyNew) => anyNew <==> db.messages != db0.messages
    case Replied(_, _, _, anyNew) => anyNew <==> db.messages != db0.messages
    case Stopped => true
    case _ => db.messages == db0.messages
  }

  lemma AdvanceTells(job: Job, db0: Db, db: Db, pc: Pc, uuid: Id, now: Time)
    requires Told(db0, db, pc) && MessagesPersist(db0.messages, db.messages)
    ensures var (pc', db') := Advance(job, pc, db, uuid, now); Told(db0, db', pc')
  {
    var (pc', db') := Advance(job, pc, db, uuid, now);
    AdvanceIsWrite(job, pc, db, uuid, now);
    if db'.messages != db.messages {
      assert uuid in db'.messages && uuid !in db0.messages;
    }
  }

  lemma {:induction false} AloneTells(job: Job, db0: Db, db: Db, pc: Pc, uuids: seq<Id>, now: Time)
    requires Here(job, db0, db) && LocalsOk(job, db0, db, pc) && Told(db0, db, pc)
    ensures var (pc', db') := Alone(job, pc, db, uuids, now);
      Here(job, db0, db') && LocalsOk(job, db0, db', pc') && Told(db0, db', pc')
    decreases |uuids|
  {
    if uuids != [] {
      var (pc', db') := Advance(job, pc, db, uuids[0], now);
      StepHere(job, db0, db, pc, uuids[0], now);
      AdvanceTells(job, db0, db, pc, uuids[0], now);
      AloneTells(job, db0, db', pc', uuids[1..], now);
    }
  }

  /** A run that answers has done the whole delivery, and says "delivered" exactly
      when it added a row. */
  lemma AnswerIsHonest(job: Job, db0: Db, uuids: seq<Id>, now: Time)
    requires Valid(db0)
    ensures var (pc, db) := Alone(job, Resolving, db0, uuids, now);
      && Valid(db) && Between(job, db0, db)
      && (pc.Replied? ==> Delivers(job, db0, db) && (pc.anyNew <==> db.messages != db0.messages))
  {
    ExtendsReflexive(db0);
    AloneTells(job, db0, db0, Resolving, uuids, now);
    var (pc, db) := Alone(job, Resolving, db0, uuids, now);
    if pc.Replied? {
      ReplyFinishes(job, db0, db, pc);
    }
  }

  // ----- A run that is refused has not done the delivery -----

  /** While a run is alone, its recipient is the one named at the start, and it opens a
      chat only when there is none. */
  ghost predicate Straight(job: Job, db0: Db, db: Db, pc: Pc) {
    && (pc.Resolving? ==> db == db0)
    && (!pc.Resolving? && !pc.Stopped? ==> IsRecipient(job, db0, pc.recipient))
    && (pc.Opening? ==> !ChatKnown(db, Ordered(pc.sender, pc.recipient)))
  }

  ghost predicate Undone(job: Job, db0: Db, db: Db) {
    forall r, s, c :: !Finished(job, db0, db, r, s, c)
  }

  lemma RefusedUser(job: Job, db0: Db, db: Db, uuid: Id)
    requires UniqueNames(db.users) && UniqueAddresses(db.users) && !Accepts(db, ShadowStmt(job, uuid))
    ensures Undone(job, db0, db)
  {
    forall r, s, c ensures !Finished(job, db0, db, r, s, c) {
      if SenderOk(job, db, s) && Renamed(job, db, s) {
        ShadowUnchanged(job, db, s, uuid);
      }
    }
  }

  lemma RefusedChat(job: Job, db0: Db, db: Db, r: Id, s: Id)
    requires UniqueNames(db0.users) && UniqueAddresses(db.users)
    requires IsRecipient(job, db0, r) && SenderOk(job, db, s) && !ChatKnown(db, Ordered(s, r))
    ensures Undone(job, db0, db)
  {
  }

  /** A refused write leaves the delivery undone. */
  lemma RefusedUndone(job: Job, db0: Db, db: Db, pc: Pc, uuid: Id, now: Time)
    requires UniqueNames(db0.users) && UniqueNames(db.users) && UniqueAddresses(db.users)
    requires PcOk(job, pc, db) && Straight(job, db0, db, pc)
    requires Write(job, pc, uuid, now).Some? && !Accepts(db, Write(job, pc, uuid, now).value)
    ensures Undone(job, db0, db)
  {
    match pc
    case Shadowing(_) => RefusedUser(job, db0, db, uuid);
    case Registering(_, _) => MissingDevice(job, db0, db);
    case Opening(r, s) => RefusedChat(job, db0, db, r, s);
    case Storing(_, _, _, n, _) => MissingItem(job, db0, db, n);
  }

  lemma MissingDevice(job: Job, db0: Db, db: Db)
    requires job.body.fromDevice !in db.devices
    ensures Undone(job, db0, db)
  {
  }

  lemma MissingItem(job: Job, db0: Db, db: Db, n: nat)
    requires n < |job.body.items| && !Stored(db, ItemKey(job.body, n))
    ensures Undone(job, db0, db)
  {
  }

  lemma UnnamedUndone(job: Job, db0: Db, db: Db)
    requires forall u :: !LocalNamed(db0, u, job.body.toUser)
    ensures Undone(job, db0, db)
  {
  }

  lemma StepStraight(job: Job, db0: Db, db: Db, pc: Pc, uuid: Id, now: Time)
    requires Straight(job, db0, db, pc)
    ensures var (pc', db') := Advance(job, pc, db, uuid, now);
      Straight(job, db0, db', pc') && (pc'.Stopped? ==> db' == db)
  {
  }

  lemma StoppedUndone(job: Job, db0: Db, db: Db, pc: Pc, uuid: Id, now: Time)
    requires Here(job, db0, db) && PcOk(job, pc, db) && Straight(job, db0, db, pc)
    requires pc.Stopped? ==> Undone(job, db0, db)
    ensures var (pc', db') := Advance(job, pc, db, uuid, now); pc'.Stopped? ==> Undone(job, db0, db')
  {
    var pc' := Advance(job, pc, db, uuid, now).0;
    StepStraight(job, db0, db, pc, uuid, now);
    if pc'.Stopped? && !pc.Stopped? {
      StoppedBy(job, db, pc, uuid, now);
      if pc.Resolving? {
        UnnamedUndone(job, db0, db);
      } else {
        RefusedUndone(job, db0, db, pc, uuid, now);
      }
    }
  }

  lemma {:induction false} AloneUndone(job: Job, db0: Db, db: Db, pc: Pc, uuids: seq<Id>, now: Time)
    requires Here(job, db0, db) && LocalsOk(job, db0, db, pc) && Straight(job, db0, db, pc)
    requires pc.Stopped? ==> Undone(job, db0, db)
    ensures var (pc', db') := Alone(job, pc, db, uuids, now); pc'.Stopped? ==> Undone(job, db0, db')
    decreases |uuids|
  {
    if uuids != [] {
      var next := Advance(job, pc, db, uuids[0], now);
      StepHere(job, db0, db, pc, uuids[0], now);
      StepStraight(job, db0, db, pc, uuids[0], now);
      StoppedUndone(job, db0, db, pc, uuids[0], now);
      AloneUndone(job, db0, next.1, next.0, uuids[1..], now);
    }
  }

  // ----- The response -----

  /** What a response must say about the tables before and after: an acknowledgement
      exactly when the whole delivery is in them, with "delivered" exactly when a row is
      new; 404 exactly when no local user has the name. */
  ghost predicate Honest(job: Job, db0: Db, db: Db, reply: Reply) {
    && (reply.Ack? <==> Delivers(job, db0, db))
    && (reply.Ack? ==> reply.status == if db.messages != db0.messages then "delivered" else "duplicate")
    && (reply == NotFound <==> forall u :: !LocalNamed(db0, u, job.body.toUser))
  }

  lemma DeliveredWasNamed(job: Job, db0: Db, db: Db)
    requires Delivers(job, db0, db)
    ensures exists u :: LocalNamed(db0, u, job.body.toUser)
  {
    var r, s, c :| Finished(job, db0, db, r, s, c);
    assert LocalNamed(db0, r, job.body.toUser);
  }

  /** With any identifiers, a run that has ended has done the delivery exactly when it
      was not stopped. */
  lemma EndedIff(job: Job, db0: Db, uuids: seq<Id>, now: Time)
    requires Valid(db0)
    requires var end := Alone(job, Resolving, db0, uuids, now).0; end.Replied? || end.Stopped?
    ensures var (end, db) := Alone(job, Resolving, db0, uuids, now); end.Replied? <==> Delivers(job, db0, db)
  {
    AnswerIsHonest(job, db0, uuids, now);
    ExtendsReflexive(db0);
    AloneUndone(job, db0, db0, Resolving, uuids, now);
  }

  lemma ResponseIsHonest(job: Job, db0: Db, uuids: seq<Id>, now: Time)
    requires Valid(db0)
    requires var end := Alone(job, Resolving, db0, uuids, now).0; end.Replied? || end.Stopped?
    ensures var (end, db) := Alone(job, Resolving, db0, uuids, now);
      Valid(db) && Between(job, db0, db) && Honest(job, db0, db, Response(job, db0, end))
  {
    AnswerIsHonest(job, db0, uuids, now);
    EndedIff(job, db0, uuids, now);
    var end := Alone(job, Resolving, db0, uuids, now);
    if end.0.Replied? {
      DeliveredWasNamed(job, db0, end.1);
    }
    ResponseWord(job, db0, end.0);
  }

  lemma ResponseWord(job: Job, db0: Db, end: Pc)
    requires end.Replied? ==> exists u :: LocalNamed(db0, u, job.body.toUser)
    ensures Response(job, db0, end).Ack? <==> end.Replied?
    ensures end.Replied? ==> Response(job, db0, end) == Ack(if end.anyNew then "delivered" else "duplicate")
    ensures Response(job, db0, end) == NotFound <==> forall u :: !LocalNamed(db0, u, job.body.toUser)
  {
  }

  lemma LuckyEnds(job: Job, db0: Db, uuids: seq<Id>, now: Time)
    requires Valid(db0) && Lucky(job, Resolving, db0, uuids, now) && Deliverable(job, db0)
    ensures !Alone(job, Resolving, db0, uuids, now).0.Stopped?
  {
    ExtendsReflexive(db0);
    AloneGoesOn(job, db0, db0, Resolving, uuids, now);
  }

  /** With identifiers that collide with nothing, a run that has ended is acknowledged
      exactly when the request was deliverable. */
  lemma AcknowledgedIffDeliverable(job: Job, db0: Db, uuids: seq<Id>, now: Time, reply: Reply)
    requires Valid(db0) && Lucky(job, Resolving, db0, uuids, now)
    requires var (end, db) := Alone(job, Resolving, db0, uuids, now);
      (end.Replied? || end.Stopped?) && Honest(job, db0, db, reply)
    ensures reply.Ack? <==> Deliverable(job, db0)
  {
    EndedIff(job, db0, uuids, now);
    if Deliverable(job, db0) {
      LuckyEnds(job, db0, uuids, now);
    }
    if reply.Ack? {
      DeliveredWasDeliverable(job, db0, Alone(job, Resolving, db0, uuids, now).1);
    }
  }

  /** The sender's record that a delivery adds is a foreign one: it has the peer as its
      home, the sender's address, and the name before the first '@'. */
  lemma NewUserIsForeign(job: Job, db0: Db, db: Db, u: Id)
    requires Delivers(job, db0, db) && u in db.users && u !in db0.users
    ensures db.users[u].home == Some(job.peer) && db.users[u].address == Some(job.body.fromAddress)
    ensures db.users[u].username == Codec.SenderName(job.body.fromAddress) && !IsLocal(db, u)
  {
    assert UserBetween(job, db0, u, db.users[u]);
  }

  // ----- The stored contents are a merge in which the first writer wins -----

  datatype Content = Content(header: string, ciphertext: string)

  ghost function Contents(db: Db): map<Key, Content>
    requires MessagesOk(db)
  {
    map m | m in db.messages :: db.messages[m].key := Content(db.messages[m].header, db.messages[m].ciphertext)
  }

  /** Adds the first `n` items of a request, each unless its key is there already. */
  function Merge(contents: map<Key, Content>, body: Payload, n: nat): map<Key, Content>
    requires n <= |body.items|
  {
    if n == 0 then contents
    else
      var before := Merge(contents, body, n - 1);
      var key := ItemKey(body, n - 1);
      if key in before then before
      else before[key := Content(body.items[n - 1].header, body.items[n - 1].ciphertext)]
  }

  ghost predicate FromItem(body: Payload, n: nat, key: Key, content: Content) {
    exists i :: 0 <= i < n && First(body, i) && key == ItemKey(body, i)
      && content == Content(body.items[i].header, body.items[i].ciphertext)
  }

  lemma {:induction false} MergeKeys(contents: map<Key, Content>, body: Payload, n: nat)
    requires n <= |body.items|
    ensures forall k :: k in contents ==> k in Merge(contents, body, n) && Merge(contents, body, n)[k] == contents[k]
    ensures forall i :: 0 <= i < n ==> ItemKey(body, i) in Merge(contents, body, n)
  {
    if n > 0 {
      MergeKeys(contents, body, n - 1);
    }
  }

  lemma {:induction false} MergeValues(contents: map<Key, Content>, body: Payload, n: nat, key: Key)
    requires n <= |body.items| && key in Merge(contents, body, n) && key !in contents
    ensures FromItem(body, n, key, Merge(contents, body, n)[key])
  {
    var last := n - 1;
    if key in Merge(contents, body, last) {
      MergeValues(contents, body, last, key);
    } else {
      MergeKeys(contents, body, last);
      forall j | 0 <= j < last ensures body.items[j].toDevice != body.items[last].toDevice {
        assert ItemKey(body, j) in Merge(contents, body, last);
      }
      assert First(body, last);
    }
  }

  lemma OneFirst(body: Payload, key: Key, a: Content, b: Content)
    requires FromItem(body, |body.items|, key, a) && FromItem(body, |body.items|, key, b)
    ensures a == b
  {
  }

  lemma OldContents(job: Job, db0: Db, db: Db, key: Key)
    requires Delivers(job, db0, db) && key in Contents(db0)
    ensures key in Contents(db) && Contents(db)[key] == Contents(db0)[key]
  {
    var m :| m in db0.messages && db0.messages[m].key == key;
    assert m in db.messages && db.messages[m] == db0.messages[m];
  }

  lemma NewContents(job: Job, db0: Db, db: Db, key: Key)
    requires Delivers(job, db0, db) && key in Contents(db) && key !in Contents(db0)
    ensures FromItem(job.body, |job.body.items|, key, Contents(db)[key])
  {
    var m :| m in db.messages && db.messages[m].key == key;
    assert m !in db0.messages;
    assert NewMessage(job, db0, db, db.messages[m]);
    var i :| CarriesItem(job.body, i, db.messages[m]);
  }

  lemma ItemsStored(job: Job, db0: Db, db: Db, i: nat)
    requires Delivers(job, db0, db) && i < |job.body.items|
    ensures ItemKey(job.body, i) in Contents(db)
  {
  }

  lemma KeyMerged(job: Job, db0: Db, db: Db, key: Key)
    requires Delivers(job, db0, db) && key in Merge(Contents(db0), job.body, |job.body.items|)
    ensures key in Contents(db) && Contents(db)[key] == Merge(Contents(db0), job.body, |job.body.items|)[key]
  {
    var n := |job.body.items|;
    if key in Contents(db0) {
      MergeKeys(Contents(db0), job.body, n);
      OldContents(job, db0, db, key);
    } else {
      MergeValues(Contents(db0), job.body, n, key);
      var i :| 0 <= i < n && key == ItemKey(job.body, i);
      ItemsStored(job, db0, db, i);
      NewContents(job, db0, db, key);
      OneFirst(job.body, key, Contents(db)[key], Merge(Contents(db0), job.body, n)[key]);
    }
  }

  lemma NothingElse(job: Job, db0: Db, db: Db, key: Key)
    requires Delivers(job, db0, db) && key in Contents(db)
    ensures key in Merge(Contents(db0), job.body, |job.body.items|)
  {
    MergeKeys(Contents(db0), job.body, |job.body.items|);
    if key !in Contents(db0) {
      NewContents(job, db0, db, key);
    }
  }

  /** However it was interleaved, interrupted and repeated, a delivery leaves the old
      contents merged with the request's, and the first writer of a key wins. */
  lemma DeliveryMerges(job: Job, db0: Db, db: Db)
    requires Delivers(job, db0, db)
    ensures Contents(db) == Merge(Contents(db0), job.body, |job.body.items|)
  {
    var merged := Merge(Contents(db0), job.body, |job.body.items|);
    forall key | key in merged ensures key in Contents(db) && Contents(db)[key] == merged[key] {
      KeyMerged(job, db0, db, key);
    }
    forall key | key in Contents(db) ensures key in merged && merged[key] == Contents(db)[key] {
      NothingElse(job, db0, db, key);
      KeyMerged(job, db0, db, key);
    }
    WithinBothWays(Contents(db), merged);
  }

  // ----- A second run -----

  /** Where a run can be that repeats a finished delivery. */
  ghost predicate Repeats(job: Job, r: Id, s: Id, pc: Pc) {
    match pc
    case Resolving => true
    case Shadowing(r') => r' == r
    case Registering(r', s') => r' == r && s' == s
    case Looking(r', s') => r' == r && s' == s
    case Storing(r', s', _, n, anyNew) => r' == r && s' == s && n <= |job.body.items| && !anyNew
    case Replied(_, _, _, anyNew) => !anyNew
    case _ => false
  }

  lemma SameRecipient(job: Job, db0: Db, db: Db, r: Id, s: Id, c: Id)
    requires Valid(db) && Between(job, db0, db) && Finished(job, db0, db, r, s, c)
    ensures forall u :: LocalNamed(db, u, job.body.toUser) <==> u == r
  {
  }

  lemma ShadowUnchanged(job: Job, db: Db, s: Id, uuid: Id)
    requires UniqueNames(db.users) && UniqueAddresses(db.users) && SenderOk(job, db, s) && Renamed(job, db, s)
    ensures Accepts(db, ShadowStmt(job, uuid)) && Exec(db, ShadowStmt(job, uuid)) == db
    ensures UserAt(db, job.body.fromAddress) == s
  {
  }

  lemma RepeatStep(job: Job, db0: Db, db: Db, r: Id, s: Id, c: Id, pc: Pc, uuid: Id, now: Time)
    requires Valid(db) && Between(job, db0, db) && Finished(job, db0, db, r, s, c) && Repeats(job, r, s, pc)
    ensures var (pc', db') := Advance(job, pc, db, uuid, now);
      db' == db && Repeats(job, r, s, pc') && (pc.Replied? || Remaining(job, pc') < Remaining(job, pc))
  {
    if pc.Resolving? {
      SameRecipient(job, db0, db, r, s, c);
      assert LocalNamed(db, r, job.body.toUser);
    } else if pc.Shadowing? {
      ShadowUnchanged(job, db, s, uuid);
    } else if pc.Storing? {
      RepeatStore(job, db, pc, uuid, now);
    }
  }

  lemma RepeatStore(job: Job, db: Db, pc: Pc, uuid: Id, now: Time)
    requires pc.Storing? && pc.next <= |job.body.items| && !pc.anyNew
    requires PrefixStored(db, job.body, |job.body.items|)
    ensures var pc' := if pc.next < |job.body.items| then pc.(next := pc.next + 1)
                       else Replied(pc.recipient, pc.sender, pc.chat, false);
      Advance(job, pc, db, uuid, now) == (pc', db)
  {
  }

  lemma {:induction false} RepeatAlone(
    job: Job, db0: Db, db: Db, r: Id, s: Id, c: Id, pc: Pc, uuids: seq<Id>, now: Time)
    requires Valid(db) && Between(job, db0, db) && Finished(job, db0, db, r, s, c) && Repeats(job, r, s, pc)
    requires Remaining(job, pc) <= |uuids|
    ensures var (pc', db') := Alone(job, pc, db, uuids, now); db' == db && pc'.Replied? && !pc'.anyNew
    decreases |uuids|
  {
    if uuids != [] {
      RepeatStep(job, db0, db, r, s, c, pc, uuids[0], now);
      RepeatAlone(job, db0, db, r, s, c, Advance(job, pc, db, uuids[0], now).0, uuids[1..], now);
    }
  }

  /** Delivering the same request again answers "duplicate" and changes no table,
      whatever identifiers are generated. */
  lemma SecondRunIsDuplicate(job: Job, db0: Db, db: Db, uuids: seq<Id>, now: Time)
    requires Delivers(job, db0, db) && |job.body.items| + 6 <= |uuids|
    ensures var (pc, db') := Alone(job, Resolving, db, uuids, now);
      db' == db && Response(job, db, pc) == Ack("duplicate")
  {
    var r, s, c :| Finished(job, db0, db, r, s, c);
    RepeatAlone(job, db0, db, r, s, c, Resolving, uuids, now);
  }
}
