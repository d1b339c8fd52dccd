/** `POST /s2s/messages` on the receiving node, one SQL statement at a time.

    The handler runs no transaction.  Between two of its statements any other
    statement may execute, and the handler may stop for good. */
module ReceivePipeline {
  import opened Schema
  import Codec

  datatype Item = Item(toDevice: Id, header: string, ciphertext: string)
  datatype Payload = Payload(
    logical: string, fromAddress: string, fromDevice: Id, fromPubkey: string,
    toUser: string, items: seq<Item>)

  /** An authenticated request: the peer that signed it and the body. */
  datatype Job = Job(peer: NodeId, body: Payload)

  /** Where a handler stands, with the local variables that are live there. */
  datatype Pc =
    | Resolving
    | Shadowing(recipient: Id)
    | Registering(recipient: Id, sender: Id)
    | Looking(recipient: Id, sender: Id)
    | Opening(recipient: Id, sender: Id)
    | Storing(recipient: Id, sender: Id, chat: Id, next: nat, anyNew: bool)
    | Replied(recipient: Id, sender: Id, chat: Id, anyNew: bool)
    | Stopped

  function ItemKey(body: Payload, i: nat): Key
    requires i < |body.items|
  {
    Key(body.logical, body.items[i].toDevice)
  }

  function ItemRow(body: Payload, i: nat, recipient: Id, sender: Id, chat: Id, now: Time): Message
    requires i < |body.items|
  {
    Message(ItemKey(body, i), chat, sender, body.fromDevice, recipient,
            body.items[i].header, body.items[i].ciphertext, now, None)
  }

  /** Item `i` is the first one for its device. */
  ghost predicate First(body: Payload, i: nat) {
    i < |body.items| && forall j :: 0 <= j < i ==> body.items[j].toDevice != body.items[i].toDevice
  }

  ghost predicate CarriesItem(body: Payload, i: nat, row: Message) {
    && First(body, i) && row.key == ItemKey(body, i)
    && row.header == body.items[i].header && row.ciphertext == body.items[i].ciphertext
  }

  /** One statement of the handler; `uuid` is the primary key generated for it. */
  ghost function Advance(job: Job, pc: Pc, db: Db, uuid: Id, now: Time): (r: (Pc, Db)) {
    match pc
    case Resolving =>
      if exists u :: LocalNamed(db, u, job.body.toUser) then
        var u :| LocalNamed(db, u, job.body.toUser);
        (Shadowing(u), db)
      else
        (Stopped, db)
    case Shadowing(recipient) =>
      var s := ShadowStmt(job, uuid);
      if Accepts(db, s) then
        var db' := Exec(db, s);
        ShadowKnown(db, job, uuid);
        (Registering(recipient, UserAt(db', job.body.fromAddress)), db')
      else
        (Stopped, db)
    case Registering(recipient, sender) =>
      var s := UpsertShadowDevice(job.body.fromDevice, sender, job.body.fromPubkey);
      (if Accepts(db, s) then Looking(recipient, sender) else Stopped, Exec(db, s))
    case Looking(recipient, sender) =>
      var c := Ordered(sender, recipient);
      (if ChatKnown(db, c) then Storing(recipient, sender, ChatAt(db, c), 0, false)
       else Opening(recipient, sender), db)
    case Opening(recipient, sender) =>
      var c := Ordered(sender, recipient);
      var s := InsertChat(uuid, c.userA, c.userB);
      (if Accepts(db, s) then Storing(recipient, sender, uuid, 0, false) else Stopped, Exec(db, s))
    case Storing(recipient, sender, chat, next, anyNew) =>
      if next >= |job.body.items| then
        (Replied(recipient, sender, chat, anyNew), db)
      else
        var row := ItemRow(job.body, next, recipient, sender, chat, now);
        var s := InsertFederatedMessage(uuid, row);
        (if Accepts(db, s) then Storing(recipient, sender, chat, next + 1, anyNew || !Stored(db, row.key))
         else Stopped, Exec(db, s))
    case Replied(_, _, _, _) => (pc, db)
    case Stopped => (pc, db)
  }

  function ShadowStmt(job: Job, uuid: Id): Stmt {
    UpsertShadowUser(uuid, Codec.SenderName(job.body.fromAddress), job.body.fromAddress, job.peer)
  }

  lemma ShadowKnown(db: Db, job: Job, uuid: Id)
    requires Accepts(db, ShadowStmt(job, uuid))
    ensures AddressKnown(Exec(db, ShadowStmt(job, uuid)), job.body.fromAddress)
  {
    var db' := Exec(db, ShadowStmt(job, uuid));
    var u := if AddressKnown(db, job.body.fromAddress) then UserAt(db, job.body.fromAddress) else uuid;
    assert u in db'.users && db'.users[u].address == Some(job.body.fromAddress);
  }

  // ----- What a handler knows -----

  ghost predicate RecipientOk(db: Db, recipient: Id) {
    IsLocal(db, recipient)
  }

  ghost predicate SenderOk(job: Job, db: Db, sender: Id) {
    sender in db.users && db.users[sender].address == Some(job.body.fromAddress)
  }

  ghost predicate ChatOk(db: Db, chat: Id, recipient: Id, sender: Id) {
    chat in db.chats && db.chats[chat] == Ordered(sender, recipient)
  }

  ghost predicate PrefixStored(db: Db, body: Payload, n: nat) {
    n <= |body.items| && forall i {:trigger ItemKey(body, i)} :: 0 <= i < n ==> Stored(db, ItemKey(body, i))
  }

  /** The handler's locals still describe the tables. */
  ghost predicate PcOk(job: Job, pc: Pc, db: Db) {
    match pc
    case Resolving => true
    case Shadowing(r) => RecipientOk(db, r)
    case Registering(r, s) => RecipientOk(db, r) && SenderOk(job, db, s)
    case Looking(r, s) => RecipientOk(db, r) && SenderOk(job, db, s) && job.body.fromDevice in db.devices
    case Opening(r, s) => RecipientOk(db, r) && SenderOk(job, db, s) && job.body.fromDevice in db.devices
    case Storing(r, s, c, n, _) => Placed(job, db, r, s, c) && PrefixStored(db, job.body, n)
    case Replied(r, s, c, _) => Placed(job, db, r, s, c) && PrefixStored(db, job.body, |job.body.items|)
    case Stopped => true
  }

  ghost predicate Placed(job: Job, db: Db, r: Id, s: Id, c: Id) {
    && RecipientOk(db, r) && SenderOk(job, db, s)
    && job.body.fromDevice in db.devices && ChatOk(db, c, r, s)
  }

  /** No write of anybody invalidates what a handler has established. */
  lemma PcStable(job: Job, pc: Pc, a: Db, b: Db)
    requires Extends(a, b) && PcOk(job, pc, a)
    ensures PcOk(job, pc, b)
  {
  }

  /** The write a handler issues at `pc`, if that statement is a write. */
  function Write(job: Job, pc: Pc, uuid: Id, now: Time): Option<Stmt> {
    match pc
    case Shadowing(_) => Some(ShadowStmt(job, uuid))
    case Registering(_, s) => Some(UpsertShadowDevice(job.body.fromDevice, s, job.body.fromPubkey))
    case Opening(r, s) => Some(InsertChat(uuid, Ordered(s, r).userA, Ordered(s, r).userB))
    case Storing(r, s, c, n, _) =>
      if n < |job.body.items| then Some(InsertFederatedMessage(uuid, ItemRow(job.body, n, r, s, c, now))) else None
    case _ => None
  }

  lemma AdvanceIsWrite(job: Job, pc: Pc, db: Db, uuid: Id, now: Time)
    ensures Advance(job, pc, db, uuid, now).1 ==
      match Write(job, pc, uuid, now) case None => db case Some(s) => Exec(db, s)
  {
  }

  lemma AdvanceKeepsTables(job: Job, pc: Pc, db: Db, uuid: Id, now: Time)
    requires Valid(db)
    ensures var db' := Advance(job, pc, db, uuid, now).1; Valid(db') && Extends(db, db')
  {
    AdvanceIsWrite(job, pc, db, uuid, now);
    match Write(job, pc, uuid, now) {
      case None => ExtendsReflexive(db);
      case Some(s) => ExecKeepsValid(db, s); ExecExtends(db, s);
    }
  }

  lemma AdvanceKeepsLocals(job: Job, pc: Pc, db: Db, uuid: Id, now: Time)
    requires PcOk(job, pc, db) && Extends(db, Advance(job, pc, db, uuid, now).1)
    ensures var (pc', db') := Advance(job, pc, db, uuid, now); PcOk(job, pc', db')
  {
    var (pc', db') := Advance(job, pc, db, uuid, now);
    PcStable(job, pc, db, db');
    if pc.Storing? && pc'.Storing? {
      ItemStored(job, pc, db, uuid, now);
    }
  }

  /** Each statement keeps the schema, only adds rows, and leaves the handler's
      next position justified by the tables. */
  lemma AdvanceOk(job: Job, pc: Pc, db: Db, uuid: Id, now: Time)
    requires Valid(db) && PcOk(job, pc, db)
    ensures var (pc', db') := Advance(job, pc, db, uuid, now);
      Valid(db') && Extends(db, db') && PcOk(job, pc', db')
  {
    AdvanceKeepsTables(job, pc, db, uuid, now);
    AdvanceKeepsLocals(job, pc, db, uuid, now);
  }

  /** The handler's insert answers `Ok(true)`: it is not refused and finds no row of its key. */
  ghost predicate ReportsNew(job: Job, pc: Pc, db: Db, uuid: Id, now: Time) {
    pc.Storing? && pc.next < |job.body.items| &&
    var row := ItemRow(job.body, pc.next, pc.recipient, pc.sender, pc.chat, now);
    Accepts(db, InsertFederatedMessage(uuid, row)) && !Stored(db, row.key)
  }

  ghost predicate Inserts(db: Db, db': Db, id: Id) {
    id !in db.messages && id in db'.messages
  }

  /** The message table gains a row exactly when the handler's insert says so. */
  lemma ReportsNewIff(job: Job, pc: Pc, db: Db, uuid: Id, now: Time)
    ensures ReportsNew(job, pc, db, uuid, now) <==>
      pc.Storing? && Inserts(db, Advance(job, pc, db, uuid, now).1, uuid)
  {
  }

  lemma ItemStored(job: Job, pc: Pc, db: Db, uuid: Id, now: Time)
    requires pc.Storing? && pc.next < |job.body.items|
    requires Advance(job, pc, db, uuid, now).0.Storing?
    ensures Stored(Advance(job, pc, db, uuid, now).1, ItemKey(job.body, pc.next))
  {
    var row := ItemRow(job.body, pc.next, pc.recipient, pc.sender, pc.chat, now);
    var db' := Advance(job, pc, db, uuid, now).1;
    if !Stored(db, row.key) {
      assert uuid in db'.messages && db'.messages[uuid].key == row.key;
    }
  }
}
