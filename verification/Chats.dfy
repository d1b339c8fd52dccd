/** The two routines that find or create a direct chat, racing with each other and
    with every other statement.  Each is a SELECT and, when it finds nothing, an
    INSERT, with no transaction around them. */
module Chats {
  import opened Schema

  datatype Routine = ByUsers(x: Id, y: Id) | ByDevices(d: Id, e: Id)
  datatype Place = Selecting | Inserting | Done(chat: Id) | Refused
  datatype Call = Call(routine: Routine, place: Place)
  datatype Race = Race(db: Db, calls: map<Id, Call>)

  datatype Move =
    | Begin(call: Id, routine: Routine)
    | Go(call: Id, uuid: Id)
    | Other(stmt: Stmt)

  /** The (user_a, user_b) that the routine's SQL computes.  `LEAST` and `GREATEST`
      skip the NULL of a missing device. */
  ghost function Target(db: Db, r: Routine): Option<Chat> {
    match r
    case ByUsers(x, y) => Some(Ordered(x, y))
    case ByDevices(d, e) =>
      if d in db.devices && e in db.devices then Some(Ordered(db.devices[d].owner, db.devices[e].owner))
      else if d in db.devices then Some(Chat(db.devices[d].owner, db.devices[d].owner))
      else if e in db.devices then Some(Chat(db.devices[e].owner, db.devices[e].owner))
      else None
  }

  /** One statement of a call; with no pair the INSERT violates the shape constraint. */
  ghost function Advance(db: Db, c: Call, uuid: Id): (Place, Db) {
    match c.place
    case Selecting =>
      var t := Target(db, c.routine);
      if t.Some? && ChatKnown(db, t.value) then (Done(ChatAt(db, t.value)), db) else (Inserting, db)
    case Inserting =>
      (match Target(db, c.routine)
       case None => (Refused, db)
       case Some(t) =>
         var s := InsertChat(uuid, t.userA, t.userB);
         (if Accepts(db, s) then Done(uuid) else Refused, Exec(db, s)))
    case _ => (c.place, db)
  }

  ghost predicate Enabled(r: Race, m: Move) {
    match m
    case Begin(c, _) => c !in r.calls
    case Go(c, _) => c in r.calls
    case Other(_) => true
  }

  ghost function Next(r: Race, m: Move): Race
    requires Enabled(r, m)
  {
    match m
    case Begin(c, routine) => r.(calls := r.calls[c := Call(routine, Selecting)])
    case Go(c, uuid) =>
      var (place, db) := Advance(r.db, r.calls[c], uuid);
      Race(db, r.calls[c := r.calls[c].(place := place)])
    case Other(stmt) => r.(db := Exec(r.db, stmt))
  }

  ghost predicate Allowed(r: Race, ms: seq<Move>)
    decreases |ms|
  {
    ms == [] || (Enabled(r, ms[0]) && Allowed(Next(r, ms[0]), ms[1..]))
  }

  ghost function After(r: Race, ms: seq<Move>): Race
    requires Allowed(r, ms)
    decreases |ms|
  {
    if ms == [] then r else After(Next(r, ms[0]), ms[1..])
  }

  /** A finished call holds the chat of its pair. */
  ghost predicate CallOk(db: Db, c: Call) {
    c.place.Done? ==>
      c.place.chat in db.chats && Target(db, c.routine) == Some(db.chats[c.place.chat])
      && (c.routine.ByDevices? ==> c.routine.d in db.devices && c.routine.e in db.devices)
  }

  ghost predicate RaceOk(r: Race) {
    Valid(r.db) && forall c :: c in r.calls ==> CallOk(r.db, r.calls[c])
  }

  lemma CallPersists(a: Db, b: Db, c: Call)
    requires Extends(a, b) && CallOk(a, c)
    ensures CallOk(b, c)
  {
  }

  lemma AdvanceOk(db: Db, c: Call, uuid: Id)
    requires Valid(db) && CallOk(db, c)
    ensures var (place, db') := Advance(db, c, uuid);
      Valid(db') && Extends(db, db') && CallOk(db', c.(place := place))
  {
    ExtendsReflexive(db);
    var t := Target(db, c.routine);
    if c.place.Inserting? && t.Some? {
      var s := InsertChat(uuid, t.value.userA, t.value.userB);
      ExecKeepsValid(db, s);
      ExecExtends(db, s);
    } else if c.place.Selecting? && t.Some? && ChatKnown(db, t.value) {
      assert db.chats[ChatAt(db, t.value)].userA < db.chats[ChatAt(db, t.value)].userB;
    }
  }

  lemma NextOk(r: Race, m: Move)
    requires RaceOk(r) && Enabled(r, m)
    ensures RaceOk(Next(r, m)) && Extends(r.db, Next(r, m).db)
  {
    var r' := Next(r, m);
    match m {
      case Begin(_, _) => ExtendsReflexive(r.db);
      case Go(c, uuid) => AdvanceOk(r.db, r.calls[c], uuid);
      case Other(stmt) => ExecKeepsValid(r.db, stmt); ExecExtends(r.db, stmt);
    }
    forall c | c in r'.calls ensures CallOk(r'.db, r'.calls[c]) {
      if c in r.calls && r'.calls[c] == r.calls[c] {
        CallPersists(r.db, r'.db, r.calls[c]);
      }
    }
  }

  lemma {:induction false} RunOk(r: Race, ms: seq<Move>)
    requires RaceOk(r) && Allowed(r, ms)
    ensures RaceOk(After(r, ms))
    decreases |ms|
  {
    if ms != [] {
      NextOk(r, ms[0]);
      RunOk(Next(r, ms[0]), ms[1..]);
    }
  }

  /** The two users a call is about. */
  ghost function Members(db: Db, r: Routine): set<Id> {
    match r
    case ByUsers(x, y) => {x, y}
    case ByDevices(d, e) =>
      (if d in db.devices then {db.devices[d].owner} else {}) + (if e in db.devices then {db.devices[e].owner} else {})
  }

  lemma MembersOfChat(db: Db, c: Call)
    requires Valid(db) && CallOk(db, c) && c.place.Done?
    ensures var row := db.chats[c.place.chat]; Members(db, c.routine) == {row.userA, row.userB} && row.userA < row.userB
  {
  }

  /** Whatever the interleaving, two finished calls hold the same chat exactly when
      they are about the same two users, in whichever order and by whichever routine. */
  lemma OneChatPerPair(db0: Db, ms: seq<Move>, c: Id, d: Id)
    requires Valid(db0) && Allowed(Race(db0, map[]), ms)
    requires var r := After(Race(db0, map[]), ms);
      c in r.calls && d in r.calls && r.calls[c].place.Done? && r.calls[d].place.Done?
    ensures var r := After(Race(db0, map[]), ms);
      r.calls[c].place.chat == r.calls[d].place.chat
      <==> Members(r.db, r.calls[c].routine) == Members(r.db, r.calls[d].routine)
  {
    RunOk(Race(db0, map[]), ms);
    var r := After(Race(db0, map[]), ms);
    assert CallOk(r.db, r.calls[c]) && CallOk(r.db, r.calls[d]);
    MembersOfChat(r.db, r.calls[c]);
    MembersOfChat(r.db, r.calls[d]);
    var a, b := r.db.chats[r.calls[c].place.chat], r.db.chats[r.calls[d].place.chat];
    SamePairOfUsers(a, b);
  }

  lemma SamePairOfUsers(a: Chat, b: Chat)
    requires a.userA < a.userB && b.userA < b.userB
    ensures {a.userA, a.userB} == {b.userA, b.userB} <==> a == b
  {
  }

  /** In a race for a pair the loser is refused, and asking again gives it the winner's chat. */
  lemma RetryFindsWinner(db: Db, c: Call, uuid: Id, again: Id)
    requires Valid(db) && CallOk(db, c) && c.place.Inserting?
    requires Target(db, c.routine).Some? && ChatKnown(db, Target(db, c.routine).value)
    ensures Advance(db, c, uuid) == (Refused, db)
    ensures Advance(db, c.(place := Selecting), again) == (Done(ChatAt(db, Target(db, c.routine).value)), db)
  {
  }
}
