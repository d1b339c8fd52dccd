/** The tables of one node and the SQL writes its handlers issue.

    A table is a map from primary key to row.  A write is a value of type `Stmt`;
    `Accepts` says when PostgreSQL raises no error for it, and `Exec` gives the
    tables afterwards (unchanged when there is an error).  A generated primary key
    is carried by the statement, so freshness is a matter of the statement being
    accepted, never an assumption. */
module Schema {
  /** A UUID: only equality and the order `<` on identifiers are used. */
  type Id = int
  /** The canonical host name of a node. */
  type NodeId = string
  /** Microseconds. */
  type Time = int
  const SECOND: nat := 1_000_000

  datatype Option<+T> = None | Some(value: T)

  /** `home` is the node a shadow record belongs to; local users have none. */
  datatype User = User(username: string, home: Option<NodeId>, address: Option<string>)
  datatype Device = Device(owner: Id, pubkey: string)
  datatype Chat = Chat(userA: Id, userB: Id)
  datatype Key = Key(logical: string, toDevice: Id)
  datatype Message = Message(
    key: Key, chat: Id, fromUser: Id, fromDevice: Id, toUser: Id,
    header: string, ciphertext: string, createdAt: Time, deliveredAt: Option<Time>)
  datatype Session = Session(chat: Id, sender: Id, receiver: Id)
  datatype PendingSession = PendingSession(sender: Id, recipient: Id, envelope: string)

  datatype Db = Db(
    users: map<Id, User>, devices: map<Id, Device>, chats: map<Id, Chat>,
    messages: map<Id, Message>, sessions: map<Id, Session>, pending: map<Id, PendingSession>)

  datatype Stmt =
    | CreateUser(id: Id, username: string)
    | CreateDevice(id: Id, owner: Id, pubkey: string)
    | UpsertShadowUser(id: Id, username: string, address: string, home: NodeId)
    | UpsertShadowDevice(id: Id, owner: Id, pubkey: string)
    | InsertChat(id: Id, userA: Id, userB: Id)
    | InsertMessage(id: Id, row: Message)
    | InsertFederatedMessage(id: Id, row: Message)
    | MarkDelivered(device: Id, at: Time)
    | UpsertSession(id: Id, session: Session)
    | CreatePending(id: Id, init: PendingSession)
    | DeletePending(id: Id)

  // ----- Constraints -----

  ghost predicate UniqueNames(users: map<Id, User>) {
    forall i, j {:trigger users[i].username, users[j].username} ::
      i in users && j in users && users[i].username == users[j].username ==> i == j
  }

  ghost predicate UniqueAddresses(users: map<Id, User>) {
    forall i, j {:trigger users[i].address, users[j].address} ::
      i in users && j in users && users[i].address.Some? && users[i].address == users[j].address ==> i == j
  }

  ghost predicate DevicesOk(db: Db) {
    && (forall d :: d in db.devices ==> db.devices[d].owner in db.users)
    && (forall d, e :: d in db.devices && e in db.devices && db.devices[d] == db.devices[e] ==> d == e)
  }

  /** `chats_direct_shape` and `uniq_direct_chat`. */
  ghost predicate ChatsOk(db: Db) {
    && (forall c :: c in db.chats ==>
      db.chats[c].userA < db.chats[c].userB && db.chats[c].userA in db.users && db.chats[c].userB in db.users)
    && (forall c, d :: c in db.chats && d in db.chats && db.chats[c] == db.chats[d] ==> c == d)
  }

  ghost predicate RefsOk(db: Db, m: Message) {
    && m.chat in db.chats && m.fromUser in db.users && m.toUser in db.users
    && m.fromDevice in db.devices && m.key.toDevice in db.devices
  }

  ghost predicate MessagesOk(db: Db) {
    && (forall m :: m in db.messages ==> RefsOk(db, db.messages[m]))
    && (forall m, n :: m in db.messages && n in db.messages && db.messages[m].key == db.messages[n].key ==> m == n)
  }

  ghost predicate SessionRefsOk(db: Db, s: Session) {
    s.chat in db.chats && s.sender in db.devices && s.receiver in db.devices
  }

  ghost predicate SessionsOk(db: Db) {
    && (forall s :: s in db.sessions ==> SessionRefsOk(db, db.sessions[s]))
    && (forall s, t :: s in db.sessions && t in db.sessions && SamePair(db.sessions[s], db.sessions[t]) ==> s == t)
    && (forall p :: p in db.pending ==> db.pending[p].sender in db.devices && db.pending[p].recipient in db.devices)
  }

  ghost predicate SamePair(s: Session, t: Session) {
    s.sender == t.sender && s.receiver == t.receiver
  }

  ghost predicate Valid(db: Db) {
    && UniqueNames(db.users) && UniqueAddresses(db.users)
    && DevicesOk(db) && ChatsOk(db) && MessagesOk(db) && SessionsOk(db)
  }

  // ----- Lookups -----

  ghost predicate NameTaken(db: Db, name: string) {
    exists u :: u in db.users && db.users[u].username == name
  }

  ghost predicate AddressKnown(db: Db, address: string) {
    exists u :: u in db.users && db.users[u].address == Some(address)
  }

  ghost function UserAt(db: Db, address: string): (u: Id)
    requires AddressKnown(db, address)
    ensures u in db.users && db.users[u].address == Some(address)
  {
    var u :| u in db.users && db.users[u].address == Some(address);
    u
  }

  ghost predicate IsLocal(db: Db, u: Id) {
    u in db.users && db.users[u].home == None
  }

  ghost predicate LocalNamed(db: Db, u: Id, name: string) {
    IsLocal(db, u) && db.users[u].username == name
  }

  ghost predicate DeviceTaken(db: Db, row: Device) {
    exists d :: d in db.devices && db.devices[d] == row
  }

  function Ordered(x: Id, y: Id): (c: Chat)
    ensures {c.userA, c.userB} == {x, y} && c.userA <= c.userB
    ensures c.userA < c.userB <==> x != y
  {
    if x < y then Chat(x, y) else Chat(y, x)
  }

  ghost predicate ChatKnown(db: Db, c: Chat) {
    exists i :: i in db.chats && db.chats[i] == c
  }

  ghost function ChatAt(db: Db, c: Chat): (i: Id)
    requires ChatKnown(db, c)
    ensures i in db.chats && db.chats[i] == c
  {
    var i :| i in db.chats && db.chats[i] == c;
    i
  }

  ghost predicate Stored(db: Db, key: Key) {
    exists m :: m in db.messages && db.messages[m].key == key
  }

  ghost predicate SessionKnown(db: Db, s: Session) {
    exists i :: i in db.sessions && SamePair(db.sessions[i], s)
  }

  // ----- Statements -----

  /** No constraint is violated by `s`. */
  ghost predicate Accepts(db: Db, s: Stmt) {
    match s
    case CreateUser(id, name) => id !in db.users && !NameTaken(db, name)
    case CreateDevice(id, owner, pubkey) =>
      id !in db.devices && owner in db.users && !DeviceTaken(db, Device(owner, pubkey))
    case UpsertShadowUser(id, name, address, home) =>
      if AddressKnown(db, address) then
        forall u :: u in db.users && db.users[u].username == name ==> u == UserAt(db, address)
      else
        id !in db.users && !NameTaken(db, name)
    case UpsertShadowDevice(id, owner, pubkey) =>
      id in db.devices || (owner in db.users && !DeviceTaken(db, Device(owner, pubkey)))
    case InsertChat(id, a, b) =>
      id !in db.chats && a < b && a in db.users && b in db.users && !ChatKnown(db, Chat(a, b))
    case InsertMessage(id, row) => id !in db.messages && !Stored(db, row.key) && RefsOk(db, row)
    case InsertFederatedMessage(id, row) =>
      Stored(db, row.key) || (id !in db.messages && RefsOk(db, row))
    case MarkDelivered(_, _) => true
    case UpsertSession(id, row) =>
      SessionKnown(db, row) || (id !in db.sessions && SessionRefsOk(db, row))
    case CreatePending(id, row) =>
      id in db.pending || (row.sender in db.devices && row.recipient in db.devices)
    case DeletePending(_) => true
  }

  ghost function Exec(db: Db, s: Stmt): Db {
    if !Accepts(db, s) then db else
    match s
    case CreateUser(id, name) => db.(users := db.users[id := User(name, None, None)])
    case CreateDevice(id, owner, pubkey) => db.(devices := db.devices[id := Device(owner, pubkey)])
    case UpsertShadowUser(id, name, address, home) =>
      if AddressKnown(db, address) then
        var u := UserAt(db, address);
        db.(users := db.users[u := db.users[u].(username := name)])
      else
        db.(users := db.users[id := User(name, Some(home), Some(address))])
    case UpsertShadowDevice(id, owner, pubkey) =>
      if id in db.devices then db else db.(devices := db.devices[id := Device(owner, pubkey)])
    case InsertChat(id, a, b) => db.(chats := db.chats[id := Chat(a, b)])
    case InsertMessage(id, row) => db.(messages := db.messages[id := row])
    case InsertFederatedMessage(id, row) =>
      if Stored(db, row.key) then db else db.(messages := db.messages[id := row])
    case MarkDelivered(device, at) => db.(messages := Drained(db.messages, device, at))
    case UpsertSession(id, row) =>
      if SessionKnown(db, row) then db else db.(sessions := db.sessions[id := row])
    case CreatePending(id, row) =>
      if id in db.pending then db else db.(pending := db.pending[id := row])
    case DeletePending(id) => db.(pending := db.pending - {id})
  }

  function Drained(messages: map<Id, Message>, device: Id, at: Time): (r: map<Id, Message>)
    ensures r.Keys == messages.Keys
  {
    map m | m in messages ::
      if messages[m].key.toDevice == device && messages[m].deliveredAt == None
      then messages[m].(deliveredAt := Some(at)) else messages[m]
  }

  lemma NewUserKeepsValid(db: Db, id: Id, u: User)
    requires Valid(db) && id !in db.users && !NameTaken(db, u.username)
    requires u.address.Some? ==> !AddressKnown(db, u.address.value)
    ensures Valid(db.(users := db.users[id := u]))
  {
  }

  lemma RenameKeepsValid(db: Db, id: Id, name: string)
    requires Valid(db) && id in db.users
    requires forall u :: u in db.users && db.users[u].username == name ==> u == id
    ensures Valid(db.(users := db.users[id := db.users[id].(username := name)]))
  {
  }

  lemma NewDeviceKeepsValid(db: Db, id: Id, d: Device)
    requires Valid(db) && id !in db.devices && d.owner in db.users && !DeviceTaken(db, d)
    ensures Valid(db.(devices := db.devices[id := d]))
  {
  }

  lemma NewChatKeepsValid(db: Db, id: Id, c: Chat)
    requires Valid(db) && id !in db.chats && c.userA < c.userB
    requires c.userA in db.users && c.userB in db.users && !ChatKnown(db, c)
    ensures Valid(db.(chats := db.chats[id := c]))
  {
  }

  lemma NewMessageKeepsValid(db: Db, id: Id, row: Message)
    requires Valid(db) && id !in db.messages && !Stored(db, row.key) && RefsOk(db, row)
    ensures Valid(db.(messages := db.messages[id := row]))
  {
  }

  lemma DrainKeepsValid(db: Db, device: Id, at: Time)
    requires Valid(db)
    ensures Valid(db.(messages := Drained(db.messages, device, at)))
  {
  }

  lemma NewSessionKeepsValid(db: Db, id: Id, row: Session)
    requires Valid(db) && id !in db.sessions && !SessionKnown(db, row) && SessionRefsOk(db, row)
    ensures Valid(db.(sessions := db.sessions[id := row]))
  {
  }

  lemma PendingKeepsValid(db: Db, pending: map<Id, PendingSession>)
    requires Valid(db)
    requires forall p :: p in pending ==> pending[p].sender in db.devices && pending[p].recipient in db.devices
    ensures Valid(db.(pending := pending))
  {
  }

  /** Every write, accepted or refused, keeps every constraint of the schema. */
  lemma ExecKeepsValid(db: Db, s: Stmt)
    requires Valid(db)
    ensures Valid(Exec(db, s))
  {
    if Accepts(db, s) && Exec(db, s) != db {
      match s
      case CreateUser(id, name) => NewUserKeepsValid(db, id, User(name, None, None));
      case CreateDevice(id, owner, pubkey) => NewDeviceKeepsValid(db, id, Device(owner, pubkey));
      case UpsertShadowUser(id, name, address, home) =>
        if AddressKnown(db, address) {
          RenameKeepsValid(db, UserAt(db, address), name);
        } else {
          NewUserKeepsValid(db, id, User(name, Some(home), Some(address)));
        }
      case UpsertShadowDevice(id, owner, pubkey) => NewDeviceKeepsValid(db, id, Device(owner, pubkey));
      case InsertChat(id, a, b) => NewChatKeepsValid(db, id, Chat(a, b));
      case InsertMessage(id, row) => NewMessageKeepsValid(db, id, row);
      case InsertFederatedMessage(id, row) => NewMessageKeepsValid(db, id, row);
      case MarkDelivered(device, at) => DrainKeepsValid(db, device, at);
      case UpsertSession(id, row) => NewSessionKeepsValid(db, id, row);
      case CreatePending(id, row) => PendingKeepsValid(db, db.pending[id := row]);
      case DeletePending(id) => PendingKeepsValid(db, db.pending - {id});
    }
  }

  // ----- What no write undoes -----

  ghost predicate SameMessage(m: Message, n: Message) {
    n == m.(deliveredAt := n.deliveredAt)
  }

  ghost predicate RowsPersist<Row>(a: map<Id, Row>, b: map<Id, Row>) {
    forall k :: k in a ==> k in b && b[k] == a[k]
  }

  /** Only the username of a user that has a federated address may change. */
  ghost predicate UsersPersist(a: map<Id, User>, b: map<Id, User>) {
    forall u :: u in a ==>
      && u in b && b[u] == a[u].(username := b[u].username)
      && (a[u].address == None ==> b[u] == a[u])
  }

  ghost predicate MessagesPersist(a: map<Id, Message>, b: map<Id, Message>) {
    forall m :: m in a ==> m in b && SameMessage(a[m], b[m])
  }

  /** Rows persist; only a shadow's username and a message's `deliveredAt` may change. */
  ghost predicate Extends(a: Db, b: Db) {
    && UsersPersist(a.users, b.users) && RowsPersist(a.devices, b.devices) && RowsPersist(a.chats, b.chats)
    && MessagesPersist(a.messages, b.messages) && RowsPersist(a.sessions, b.sessions)
  }

  lemma ExecUsersPersist(db: Db, s: Stmt)
    ensures UsersPersist(db.users, Exec(db, s).users)
  {
    if s.UpsertShadowUser? && AddressKnown(db, s.address) {
      assert UserAt(db, s.address) in db.users;
    }
  }

  lemma ExecRowsPersist(db: Db, s: Stmt)
    ensures RowsPersist(db.devices, Exec(db, s).devices) && RowsPersist(db.chats, Exec(db, s).chats)
    ensures RowsPersist(db.sessions, Exec(db, s).sessions)
  {
  }

  lemma ExecMessagesPersist(db: Db, s: Stmt)
    ensures MessagesPersist(db.messages, Exec(db, s).messages)
  {
  }

  /** No write removes a user, device, chat, message or session or changes more of it
      than that; a pending session goes exactly when it is the one being deleted. */
  lemma ExecExtends(db: Db, s: Stmt)
    ensures Extends(db, Exec(db, s))
    ensures forall p :: p in db.pending ==>
      if s == DeletePending(p) then p !in Exec(db, s).pending
      else p in Exec(db, s).pending && Exec(db, s).pending[p] == db.pending[p]
  {
    ExecUsersPersist(db, s);
    ExecRowsPersist(db, s);
    ExecMessagesPersist(db, s);
  }

  lemma ExtendsReflexive(db: Db)
    ensures Extends(db, db)
  {
  }

  lemma ExtendsTransitive(a: Db, b: Db, c: Db)
    requires Extends(a, b) && Extends(b, c)
    ensures Extends(a, c)
  {
  }

  lemma StoredPersists(a: Db, b: Db, key: Key)
    requires Extends(a, b) && Stored(a, key)
    ensures Stored(b, key)
  {
  }

  // ----- Identifiers that are not in use -----

  ghost predicate Below(ids: set<Id>, k: Id) {
    forall i :: i in ids ==> i < k
  }

  lemma {:induction false} Bound(ids: set<Id>) returns (k: Id)
    ensures Below(ids, k)
    decreases |ids|
  {
    k := 0;
    if exists i :: i in ids {
      var i :| i in ids;
      var rest := Bound(ids - {i});
      k := if i < rest then rest else i + 1;
      assert forall j :: j in ids ==> j == i || j in ids - {i};
    }
  }
}
