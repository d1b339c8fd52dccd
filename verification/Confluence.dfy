/** Any number of overlapping, aborted and repeated runs of one delivery.

    A schedule picks, statement by statement, which run moves and which run dies.
    All schedules in which at least one run answers leave the same tables, read
    without generated identifiers and insertion times. */
module Confluence {
  import opened Schema
  import opened ReceivePipeline
  import Codec

  datatype System = System(db: Db, runs: seq<Pc>)
  datatype Move = Work(run: nat, uuid: Id, now: Time) | Abort(run: nat)

  ghost function Start(db: Db, n: nat): System {
    System(db, seq(n, _ => Resolving))
  }

  /** A run that has answered or died does not move any more. */
  ghost function Apply(job: Job, s: System, m: Move): System {
    if m.run >= |s.runs| || s.runs[m.run].Replied? then s
    else
      match m
      case Abort(i) => s.(runs := s.runs[i := Stopped])
      case Work(i, uuid, now) =>
        var (pc, db) := Advance(job, s.runs[i], s.db, uuid, now);
        System(db, s.runs[i := pc])
  }

  ghost function Play(job: Job, s: System, schedule: seq<Move>): System
    decreases |schedule|
  {
    if schedule == [] then s else Play(job, Apply(job, s, schedule[0]), schedule[1..])
  }

  ghost predicate Answered(s: System) {
    exists i :: 0 <= i < |s.runs| && s.runs[i].Replied?
  }

  // ----- Tables without generated identifiers -----

  /** Who a user is across nodes: usernames of shadows may change, addresses do not. */
  datatype Person = At(address: string) | Named(username: string)
  datatype NaturalMessage = NaturalMessage(
    key: Key, chat: set<Person>, from: Person, fromDevice: Id, to: Person,
    header: string, ciphertext: string, deliveredAt: Option<Time>)
  datatype Natural = Natural(
    users: set<User>, devices: map<Id, (Person, string)>, chats: set<set<Person>>, messages: set<NaturalMessage>,
    sessions: map<Id, Session>, pending: map<Id, PendingSession>)

  ghost function PersonAt(db: Db, u: Id): Person {
    if u !in db.users then Named("")
    else if db.users[u].address.Some? then At(db.users[u].address.value)
    else Named(db.users[u].username)
  }

  ghost function Pair(db: Db, c: Chat): set<Person> {
    {PersonAt(db, c.userA), PersonAt(db, c.userB)}
  }

  ghost function NaturalRow(db: Db, m: Message): NaturalMessage {
    NaturalMessage(m.key, if m.chat in db.chats then Pair(db, db.chats[m.chat]) else {},
                   PersonAt(db, m.fromUser), m.fromDevice, PersonAt(db, m.toUser),
                   m.header, m.ciphertext, m.deliveredAt)
  }

  ghost function NaturalState(db: Db): Natural {
    Natural(
      set u | u in db.users :: db.users[u],
      map d | d in db.devices :: (PersonAt(db, db.devices[d].owner), db.devices[d].pubkey),
      set c | c in db.chats :: Pair(db, db.chats[c]),
      set m | m in db.messages :: NaturalRow(db, db.messages[m]),
      db.sessions, db.pending)
  }

  // ----- At most this much is added -----

  /** The local user the request names, as the tables stood at the start. */
  ghost predicate IsRecipient(job: Job, db0: Db, r: Id) {
    LocalNamed(db0, r, job.body.toUser)
  }

  ghost function Shadow(job: Job): User {
    User(Codec.SenderName(job.body.fromAddress), Some(job.peer), Some(job.body.fromAddress))
  }

  ghost predicate UserBetween(job: Job, db0: Db, u: Id, row: User) {
    if u in db0.users then
      row == db0.users[u] ||
      (row.address == Shadow(job).address && row == db0.users[u].(username := Shadow(job).username))
    else
      row == Shadow(job) && !AddressKnown(db0, job.body.fromAddress)
  }

  ghost predicate NewDevice(job: Job, db: Db, d: Id, row: Device) {
    d == job.body.fromDevice && row.pubkey == job.body.fromPubkey && SenderOk(job, db, row.owner)
  }

  ghost predicate NewChat(job: Job, db0: Db, db: Db, row: Chat) {
    exists r, s :: IsRecipient(job, db0, r) && SenderOk(job, db, s) && row == Ordered(s, r)
  }

  ghost predicate NewMessage(job: Job, db0: Db, db: Db, row: Message) {
    && !Stored(db0, row.key) && row.deliveredAt == None && row.fromDevice == job.body.fromDevice
    && IsRecipient(job, db0, row.toUser) && SenderOk(job, db, row.fromUser)
    && ChatOk(db, row.chat, row.toUser, row.fromUser)
    && exists i :: CarriesItem(job.body, i, row)
  }

  ghost predicate UsersBetween(job: Job, db0: Db, users: map<Id, User>) {
    forall u :: u in users ==> UserBetween(job, db0, u, users[u])
  }

  ghost predicate DevicesBetween(job: Job, db0: Db, db: Db, devices: map<Id, Device>) {
    forall d :: d in devices && d !in db0.devices ==> NewDevice(job, db, d, devices[d])
  }

  ghost predicate ChatsBetween(job: Job, db0: Db, db: Db, chats: map<Id, Chat>) {
    forall c :: c in chats && c !in db0.chats ==> NewChat(job, db0, db, chats[c])
  }

  ghost predicate MessagesBetween(job: Job, db0: Db, db: Db, messages: map<Id, Message>) {
    && (forall m :: m in messages && m !in db0.messages ==> NewMessage(job, db0, db, messages[m]))
    && (forall m :: m in db0.messages ==> m in messages && messages[m] == db0.messages[m])
  }

  ghost predicate Between(job: Job, db0: Db, db: Db) {
    && UsersBetween(job, db0, db.users) && DevicesBetween(job, db0, db, db.devices)
    && ChatsBetween(job, db0, db, db.chats) && MessagesBetween(job, db0, db, db.messages)
    && db.sessions == db0.sessions && db.pending == db0.pending
  }

  // ----- Invariant of every schedule -----

  ghost predicate Resolved(job: Job, db0: Db, db: Db, r: Id) {
    && IsLocal(db, r)
    && (IsRecipient(job, db0, r) || db.users[r].address == Some(job.body.fromAddress))
  }

  ghost predicate Renamed(job: Job, db: Db, s: Id) {
    s in db.users && db.users[s].username == Shadow(job).username
  }

  ghost predicate LocalsOk(job: Job, db0: Db, db: Db, pc: Pc) {
    && PcOk(job, pc, db)
    && (!pc.Resolving? && !pc.Stopped? ==> Resolved(job, db0, db, pc.recipient))
    && (!pc.Resolving? && !pc.Stopped? && !pc.Shadowing? ==> Renamed(job, db, pc.sender))
  }

  ghost predicate Inv(job: Job, db0: Db, s: System) {
    && Valid(db0) && Valid(s.db) && Extends(db0, s.db) && Between(job, db0, s.db)
    && forall i :: 0 <= i < |s.runs| ==> LocalsOk(job, db0, s.db, s.runs[i])
  }

  /** What a later state of the same schedule keeps. */
  ghost predicate Follows(job: Job, a: Db, b: Db) {
    && Extends(a, b)
    && forall u :: u in a.users ==> b.users[u] == a.users[u] || Renamed(job, b, u)
  }

  lemma LocalsPersist(job: Job, db0: Db, a: Db, b: Db, pc: Pc)
    requires LocalsOk(job, db0, a, pc) && Follows(job, a, b)
    ensures LocalsOk(job, db0, b, pc)
  {
  }

  lemma NewMessagePersists(job: Job, db0: Db, a: Db, b: Db, row: Message)
    requires NewMessage(job, db0, a, row) && Extends(a, b)
    ensures NewMessage(job, db0, b, row)
  {
  }

  /** Rows that a statement leaves alone stay within the bound. */
  lemma BetweenPersists(job: Job, db0: Db, a: Db, b: Db)
    requires Between(job, db0, a) && Extends(a, b)
    ensures DevicesBetween(job, db0, b, a.devices) && ChatsBetween(job, db0, b, a.chats)
    ensures MessagesBetween(job, db0, b, a.messages)
  {
  }

  /** Distinct sender and recipient: the recipient is the one the request named. */
  lemma RecipientNamed(job: Job, db0: Db, db: Db, r: Id, s: Id)
    requires Valid(db) && Resolved(job, db0, db, r) && SenderOk(job, db, s) && r != s
    ensures IsRecipient(job, db0, r)
  {
  }

  lemma ShadowUsers(job: Job, db0: Db, db: Db, uuid: Id)
    requires Extends(db0, db) && UsersBetween(job, db0, db.users)
    ensures UsersBetween(job, db0, Exec(db, ShadowStmt(job, uuid)).users)
  {
    if AddressKnown(db0, job.body.fromAddress) {
      assert UserAt(db0, job.body.fromAddress) in db.users;
    }
  }

  lemma ShadowFollows(job: Job, db: Db, uuid: Id)
    ensures Follows(job, db, Exec(db, ShadowStmt(job, uuid)))
  {
    ExecExtends(db, ShadowStmt(job, uuid));
  }

  lemma ShadowOnlyUsers(job: Job, db: Db, uuid: Id)
    ensures Exec(db, ShadowStmt(job, uuid)) == db.(users := Exec(db, ShadowStmt(job, uuid)).users)
  {
  }

  lemma ShadowStep(job: Job, db0: Db, db: Db, uuid: Id)
    requires Extends(db0, db) && Between(job, db0, db)
    ensures var db' := Exec(db, ShadowStmt(job, uuid)); Between(job, db0, db') && Follows(job, db, db')
  {
    ShadowFollows(job, db, uuid);
    BetweenPersists(job, db0, db, Exec(db, ShadowStmt(job, uuid)));
    ShadowUsers(job, db0, db, uuid);
    ShadowOnlyUsers(job, db, uuid);
  }

  lemma DeviceStep(job: Job, db0: Db, db: Db, s: Id)
    requires Extends(db0, db) && Between(job, db0, db) && SenderOk(job, db, s)
    ensures var db' := Exec(db, UpsertShadowDevice(job.body.fromDevice, s, job.body.fromPubkey));
      Between(job, db0, db') && Follows(job, db, db')
  {
    var stmt := UpsertShadowDevice(job.body.fromDevice, s, job.body.fromPubkey);
    ExecExtends(db, stmt);
    BetweenPersists(job, db0, db, Exec(db, stmt));
  }

  lemma ChatStep(job: Job, db0: Db, db: Db, uuid: Id, r: Id, s: Id)
    requires Valid(db) && Extends(db0, db) && Between(job, db0, db)
    requires SenderOk(job, db, s) && Resolved(job, db0, db, r)
    ensures var db' := Exec(db, InsertChat(uuid, Ordered(s, r).userA, Ordered(s, r).userB));
      Between(job, db0, db') && Follows(job, db, db')
  {
    var stmt := InsertChat(uuid, Ordered(s, r).userA, Ordered(s, r).userB);
    var db' := Exec(db, stmt);
    ExecExtends(db, stmt);
    BetweenPersists(job, db0, db, db');
    if Accepts(db, stmt) {
      RecipientNamed(job, db0, db, r, s);
      assert IsRecipient(job, db0, r) && SenderOk(job, db', s) && db'.chats[uuid] == Ordered(s, r);
      assert NewChat(job, db0, db', db'.chats[uuid]);
    }
  }

  lemma StoreStep(job: Job, db0: Db, db: Db, pc: Pc, uuid: Id, now: Time)
    requires Valid(db) && Extends(db0, db) && Between(job, db0, db)
    requires pc.Storing? && pc.next < |job.body.items| && LocalsOk(job, db0, db, pc)
    ensures var row := ItemRow(job.body, pc.next, pc.recipient, pc.sender, pc.chat, now);
      var db' := Exec(db, InsertFederatedMessage(uuid, row));
      Between(job, db0, db') && Follows(job, db, db')
  {
    var row := ItemRow(job.body, pc.next, pc.recipient, pc.sender, pc.chat, now);
    var stmt := InsertFederatedMessage(uuid, row);
    InsertIs(db, uuid, row);
    if Accepts(db, stmt) && !Stored(db, row.key) {
      NewRowBetween(job, db0, db, pc, row);
      RowAdded(job, db0, db, uuid, row);
    } else {
      FollowsItself(job, db);
    }
  }

  /** An insert adds its row, or does nothing. */
  lemma InsertIs(db: Db, uuid: Id, row: Message)
    ensures var s := InsertFederatedMessage(uuid, row);
      if Accepts(db, s) && !Stored(db, row.key)
      then uuid !in db.messages && Exec(db, s) == db.(messages := db.messages[uuid := row]) else Exec(db, s) == db
  {
  }

  lemma FollowsItself(job: Job, db: Db)
    ensures Follows(job, db, db)
  {
    ExtendsReflexive(db);
  }

  lemma RowAdded(job: Job, db0: Db, db: Db, uuid: Id, row: Message)
    requires Extends(db0, db) && Between(job, db0, db) && uuid !in db.messages && NewMessage(job, db0, db, row)
    ensures var db' := db.(messages := db.messages[uuid := row]); Between(job, db0, db') && Follows(job, db, db')
  {
    var db' := db.(messages := db.messages[uuid := row]);
    BetweenPersists(job, db0, db, db');
    NewMessagePersists(job, db0, db, db', row);
  }

  lemma NewRowBetween(job: Job, db0: Db, db: Db, pc: Pc, row: Message)
    requires Valid(db) && Extends(db0, db)
    requires pc.Storing? && pc.next < |job.body.items| && LocalsOk(job, db0, db, pc)
    requires row == ItemRow(job.body, pc.next, pc.recipient, pc.sender, pc.chat, row.createdAt)
    requires !Stored(db, row.key)
    ensures NewMessage(job, db0, db, row)
  {
    if Stored(db0, row.key) {
      StoredPersists(db0, db, row.key);
    }
    assert pc.recipient != pc.sender by {
      assert db.chats[pc.chat].userA < db.chats[pc.chat].userB;
    }
    RecipientNamed(job, db0, db, pc.recipient, pc.sender);
    forall j | 0 <= j < pc.next ensures job.body.items[j].toDevice != job.body.items[pc.next].toDevice {
      assert Stored(db, ItemKey(job.body, j));
    }
    assert CarriesItem(job.body, pc.next, row);
  }

  lemma WorkKeepsBetween(job: Job, db0: Db, db: Db, pc: Pc, uuid: Id, now: Time)
    requires Valid(db) && Extends(db0, db) && Between(job, db0, db) && LocalsOk(job, db0, db, pc)
    ensures var db' := Advance(job, pc, db, uuid, now).1; Between(job, db0, db') && Follows(job, db, db')
  {
    AdvanceIsWrite(job, pc, db, uuid, now);
    match pc {
      case Shadowing(_) => ShadowStep(job, db0, db, uuid);
      case Registering(_, s) => DeviceStep(job, db0, db, s);
      case Opening(r, s) => ChatStep(job, db0, db, uuid, r, s);
      case Storing(_, _, _, n, _) =>
        if n < |job.body.items| {
          StoreStep(job, db0, db, pc, uuid, now);
        } else {
          ExtendsReflexive(db);
        }
      case _ => ExtendsReflexive(db);
    }
  }

  lemma ResolvedNow(job: Job, db0: Db, db: Db, u: Id)
    requires UsersBetween(job, db0, db.users) && LocalNamed(db, u, job.body.toUser)
    ensures Resolved(job, db0, db, u)
  {
  }

  lemma RenamedNow(job: Job, db: Db, uuid: Id)
    requires UniqueAddresses(db.users) && Accepts(db, ShadowStmt(job, uuid))
    requires AddressKnown(Exec(db, ShadowStmt(job, uuid)), job.body.fromAddress)
    ensures var db' := Exec(db, ShadowStmt(job, uuid)); Renamed(job, db', UserAt(db', job.body.fromAddress))
  {
  }

  lemma WorkKeepsLocals(job: Job, db0: Db, db: Db, pc: Pc, uuid: Id, now: Time)
    requires UniqueAddresses(db.users) && UsersBetween(job, db0, db.users) && LocalsOk(job, db0, db, pc)
    requires var (pc', db') := Advance(job, pc, db, uuid, now); PcOk(job, pc', db') && Follows(job, db, db')
    ensures var (pc', db') := Advance(job, pc, db, uuid, now); LocalsOk(job, db0, db', pc')
  {
    var (pc', db') := Advance(job, pc, db, uuid, now);
    if pc.Resolving? && pc'.Shadowing? {
      ResolvedNow(job, db0, db, pc'.recipient);
    } else if pc.Shadowing? && pc'.Registering? {
      RenamedNow(job, db, uuid);
    }
  }

  lemma ApplyKeepsInv(job: Job, db0: Db, s: System, m: Move)
    requires Inv(job, db0, s)
    ensures Inv(job, db0, Apply(job, s, m))
  {
    var s' := Apply(job, s, m);
    if s' != s && m.Work? {
      AdvanceOk(job, s.runs[m.run], s.db, m.uuid, m.now);
      WorkKeepsBetween(job, db0, s.db, s.runs[m.run], m.uuid, m.now);
      ExtendsTransitive(db0, s.db, s'.db);
      forall i | 0 <= i < |s'.runs| ensures LocalsOk(job, db0, s'.db, s'.runs[i]) {
        if i == m.run {
          assert LocalsOk(job, db0, s.db, s.runs[i]);
          WorkKeepsLocals(job, db0, s.db, s.runs[i], m.uuid, m.now);
        } else {
          LocalsPersist(job, db0, s.db, s'.db, s.runs[i]);
        }
      }
    }
  }

  lemma {:induction false} PlayKeepsInv(job: Job, db0: Db, s: System, schedule: seq<Move>)
    requires Inv(job, db0, s)
    ensures Inv(job, db0, Play(job, s, schedule))
    decreases |schedule|
  {
    if schedule != [] {
      ApplyKeepsInv(job, db0, s, schedule[0]);
      PlayKeepsInv(job, db0, Apply(job, s, schedule[0]), schedule[1..]);
    }
  }

  // ----- At least this much is added by a run that answers -----

  ghost predicate Finished(job: Job, db0: Db, db: Db, r: Id, s: Id, c: Id) {
    && IsRecipient(job, db0, r) && Renamed(job, db, s)
    && Placed(job, db, r, s, c) && PrefixStored(db, job.body, |job.body.items|)
  }

  /** Everything one delivery does, and nothing else. */
  ghost predicate Delivers(job: Job, db0: Db, db: Db) {
    && Valid(db0) && Valid(db) && Extends(db0, db) && Between(job, db0, db)
    && exists r, s, c :: Finished(job, db0, db, r, s, c)
  }

  lemma ReplyFinishes(job: Job, db0: Db, db: Db, pc: Pc)
    requires Valid(db0) && Valid(db) && Extends(db0, db) && Between(job, db0, db)
    requires LocalsOk(job, db0, db, pc) && pc.Replied?
    ensures Delivers(job, db0, db)
  {
    assert pc.recipient != pc.sender by {
      assert db.chats[pc.chat].userA < db.chats[pc.chat].userB;
    }
    RecipientNamed(job, db0, db, pc.recipient, pc.sender);
    assert Finished(job, db0, db, pc.recipient, pc.sender, pc.chat);
  }

  lemma AnswerFinishes(job: Job, db0: Db, st: System)
    requires Inv(job, db0, st) && Answered(st)
    ensures Delivers(job, db0, st.db)
  {
    var i :| 0 <= i < |st.runs| && st.runs[i].Replied?;
    ReplyFinishes(job, db0, st.db, st.runs[i]);
  }

  lemma PersonKept(a: Db, b: Db, u: Id)
    requires Extends(a, b) && u in a.users
    ensures PersonAt(b, u) == PersonAt(a, u)
  {
  }

  lemma PersonOfSender(job: Job, db: Db, s: Id)
    requires SenderOk(job, db, s)
    ensures PersonAt(db, s) == At(job.body.fromAddress)
  {
  }

  lemma UserRowAgrees(job: Job, db0: Db, a: Db, b: Db, u: Id)
    requires Delivers(job, db0, a) && Delivers(job, db0, b) && u in a.users
    ensures exists v :: v in b.users && b.users[v] == a.users[u]
  {
    var row := a.users[u];
    assert UserBetween(job, db0, u, row);
    if row.address == Some(job.body.fromAddress) {
      var r, s, c :| Finished(job, db0, a, r, s, c);
      var r', s', c' :| Finished(job, db0, b, r', s', c');
      assert u == s;
      assert UserBetween(job, db0, s', b.users[s']);
      if u in db0.users {
        assert u in b.users && s' == u;
      } else {
        assert s' !in db0.users;
      }
      assert b.users[s'] == row;
    } else {
      assert u in db0.users && u in b.users && UserBetween(job, db0, u, b.users[u]);
      assert b.users[u] == row;
    }
  }

  lemma DeviceRowAgrees(job: Job, db0: Db, a: Db, b: Db, d: Id)
    requires Delivers(job, db0, a) && Delivers(job, db0, b) && d in a.devices
    ensures d in b.devices && b.devices[d].pubkey == a.devices[d].pubkey
    ensures PersonAt(b, b.devices[d].owner) == PersonAt(a, a.devices[d].owner)
  {
    if d in db0.devices {
      PersonKept(db0, a, db0.devices[d].owner);
      PersonKept(db0, b, db0.devices[d].owner);
    } else {
      assert NewDevice(job, a, d, a.devices[d]);
      var r, s, c :| Finished(job, db0, b, r, s, c);
      assert NewDevice(job, b, d, b.devices[d]);
      PersonOfSender(job, a, a.devices[d].owner);
      PersonOfSender(job, b, b.devices[d].owner);
    }
  }

  lemma PairOfNew(job: Job, db0: Db, db: Db, r: Id, s: Id, row: Chat)
    requires Extends(db0, db) && IsRecipient(job, db0, r) && SenderOk(job, db, s) && row == Ordered(s, r)
    ensures Pair(db, row) == {At(job.body.fromAddress), PersonAt(db0, r)}
  {
  }

  lemma OldChatAgrees(db0: Db, db: Db, c: Id)
    requires ChatsOk(db0) && Extends(db0, db) && c in db0.chats
    ensures c in db.chats && db.chats[c] == db0.chats[c] && Pair(db, db.chats[c]) == Pair(db0, db0.chats[c])
  {
    PersonKept(db0, db, db0.chats[c].userA);
    PersonKept(db0, db, db0.chats[c].userB);
  }

  lemma ChatRowAgrees(job: Job, db0: Db, a: Db, b: Db, c: Id)
    requires Delivers(job, db0, a) && Delivers(job, db0, b) && c in a.chats
    ensures exists d :: d in b.chats && Pair(b, b.chats[d]) == Pair(a, a.chats[c])
  {
    var row := a.chats[c];
    if c in db0.chats {
      OldChatAgrees(db0, a, c);
      OldChatAgrees(db0, b, c);
    } else {
      NewChatAgrees(job, db0, a, b, row);
    }
  }

  lemma NewChatAgrees(job: Job, db0: Db, a: Db, b: Db, row: Chat)
    requires UniqueNames(db0.users) && Extends(db0, a) && NewChat(job, db0, a, row) && Delivers(job, db0, b)
    ensures exists d :: d in b.chats && Pair(b, b.chats[d]) == Pair(a, row)
  {
    var r, s :| IsRecipient(job, db0, r) && SenderOk(job, a, s) && row == Ordered(s, r);
    var r', s', c' :| Finished(job, db0, b, r', s', c');
    assert r == r';
    PairOfNew(job, db0, a, r, s, row);
    PairOfNew(job, db0, b, r', s', b.chats[c']);
  }

  lemma OldMessageAgrees(job: Job, db0: Db, db: Db, m: Id)
    requires Delivers(job, db0, db) && m in db0.messages
    ensures m in db.messages && NaturalRow(db, db.messages[m]) == NaturalRow(db0, db0.messages[m])
  {
    var row := db0.messages[m];
    assert RefsOk(db0, row);
    var chat := db0.chats[row.chat];
    PersonKept(db0, db, row.fromUser); PersonKept(db0, db, row.toUser);
    PersonKept(db0, db, chat.userA); PersonKept(db0, db, chat.userB);
  }

  lemma NewMessageNatural(job: Job, db0: Db, db: Db, row: Message, r: Id, i: nat)
    requires Extends(db0, db) && NewMessage(job, db0, db, row)
    requires UniqueNames(db0.users) && IsRecipient(job, db0, r) && CarriesItem(job.body, i, row)
    ensures NaturalRow(db, row) == NaturalMessage(
      ItemKey(job.body, i), {At(job.body.fromAddress), PersonAt(db0, r)}, At(job.body.fromAddress),
      job.body.fromDevice, PersonAt(db0, r), job.body.items[i].header, job.body.items[i].ciphertext, None)
  {
  }

  lemma MessageRowAgrees(job: Job, db0: Db, a: Db, b: Db, m: Id)
    requires Delivers(job, db0, a) && Delivers(job, db0, b) && m in a.messages
    ensures exists n :: n in b.messages && NaturalRow(b, b.messages[n]) == NaturalRow(a, a.messages[m])
  {
    if m in db0.messages {
      OldMessageAgrees(job, db0, a, m);
      OldMessageAgrees(job, db0, b, m);
    } else {
      var row := a.messages[m];
      assert NewMessage(job, db0, a, row);
      var i :| CarriesItem(job.body, i, row);
      var r, s, c :| Finished(job, db0, b, r, s, c);
      assert Stored(b, ItemKey(job.body, i));
      var n :| n in b.messages && b.messages[n].key == row.key;
      assert n !in db0.messages;
      assert NewMessage(job, db0, b, b.messages[n]);
      var j :| CarriesItem(job.body, j, b.messages[n]);
      assert i == j;
      NewMessageNatural(job, db0, a, row, r, i);
      NewMessageNatural(job, db0, b, b.messages[n], r, i);
    }
  }

  lemma NaturalWithin(job: Job, db0: Db, a: Db, b: Db)
    requires Delivers(job, db0, a) && Delivers(job, db0, b)
    ensures NaturalState(a).users <= NaturalState(b).users
    ensures NaturalState(a).chats <= NaturalState(b).chats
    ensures NaturalState(a).messages <= NaturalState(b).messages
  {
    forall u | u in a.users ensures a.users[u] in NaturalState(b).users {
      UserRowAgrees(job, db0, a, b, u);
    }
    forall c | c in a.chats ensures Pair(a, a.chats[c]) in NaturalState(b).chats {
      ChatRowAgrees(job, db0, a, b, c);
    }
    forall m | m in a.messages ensures NaturalRow(a, a.messages[m]) in NaturalState(b).messages {
      MessageRowAgrees(job, db0, a, b, m);
    }
  }

  ghost predicate Within<K, V>(m: map<K, V>, n: map<K, V>) {
    forall k :: k in m ==> k in n && n[k] == m[k]
  }

  lemma WithinBothWays<K, V>(m: map<K, V>, n: map<K, V>)
    requires Within(m, n) && Within(n, m)
    ensures m == n
  {
  }

  lemma DevicesWithin(job: Job, db0: Db, a: Db, b: Db)
    requires Delivers(job, db0, a) && Delivers(job, db0, b)
    ensures Within(NaturalState(a).devices, NaturalState(b).devices)
  {
    forall d | d in a.devices
      ensures d in b.devices && NaturalState(b).devices[d] == NaturalState(a).devices[d]
    {
      DeviceRowAgrees(job, db0, a, b, d);
    }
  }

  /** What one delivery does is determined up to generated identifiers. */
  lemma DeliveryIsDetermined(job: Job, db0: Db, a: Db, b: Db)
    requires Delivers(job, db0, a) && Delivers(job, db0, b)
    ensures NaturalState(a) == NaturalState(b)
  {
    NaturalWithin(job, db0, a, b);
    NaturalWithin(job, db0, b, a);
    DevicesWithin(job, db0, a, b);
    DevicesWithin(job, db0, b, a);
    WithinBothWays(NaturalState(a).devices, NaturalState(b).devices);
    var na, nb := NaturalState(a), NaturalState(b);
    assert na.users == nb.users && na.chats == nb.chats && na.messages == nb.messages;
  }

  lemma StartOk(job: Job, db0: Db, n: nat)
    requires Valid(db0)
    ensures Inv(job, db0, Start(db0, n))
  {
  }

  lemma ScheduleDelivers(job: Job, db0: Db, n: nat, schedule: seq<Move>)
    requires Valid(db0) && Answered(Play(job, Start(db0, n), schedule))
    ensures Delivers(job, db0, Play(job, Start(db0, n), schedule).db)
  {
    StartOk(job, db0, n);
    PlayKeepsInv(job, db0, Start(db0, n), schedule);
    AnswerFinishes(job, db0, Play(job, Start(db0, n), schedule));
  }

  /** Two schedules of any number of runs of the same delivery, each with a run that
      answers, leave the same tables. */
  lemma Confluent(job: Job, db0: Db, n: nat, schedule: seq<Move>, n': nat, schedule': seq<Move>)
    requires Valid(db0)
    requires Answered(Play(job, Start(db0, n), schedule)) && Answered(Play(job, Start(db0, n'), schedule'))
    ensures NaturalState(Play(job, Start(db0, n), schedule).db) == NaturalState(Play(job, Start(db0, n'), schedule').db)
  {
    ScheduleDelivers(job, db0, n, schedule);
    ScheduleDelivers(job, db0, n', schedule');
    DeliveryIsDetermined(job, db0, Play(job, Start(db0, n), schedule).db, Play(job, Start(db0, n'), schedule').db);
  }
}
