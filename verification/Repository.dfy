/** One node's database and the repository functions that change it.

    Every function is proved against the statement semantics that the models of the
    protocol are built from, so that what is proved about them holds of it. */
module Repository {
  import opened Schema
  import opened ReceivePipeline
  import Chats
  import Delivery
  import Draining
  import NodeAuth
  import Nonces
  import Outbox

  datatype Result<+T> = Ok(value: T) | Err

  class Database {
    var users: map<Id, User>
    var devices: map<Id, Device>
    var chats: map<Id, Chat>
    var messages: map<Id, Message>
    var sessions: map<Id, Session>
    var pending: map<Id, PendingSession>
    var outbox: map<Id, Outbox.Entry>
    var nonces: Nonces.Table
    var peers: map<NodeId, NodeAuth.Peer>

    ghost function Tables(): Db
      reads this
    {
      Db(users, devices, chats, messages, sessions, pending)
    }

    /** The constraints of the schema. */
    ghost predicate Valid()
      reads this
    {
      Schema.Valid(Tables())
    }

    constructor ()
      ensures Valid() && Tables() == Db(map[], map[], map[], map[], map[], map[])
      ensures outbox == map[] && nonces == map[] && peers == map[]
    {
      users, devices, chats, messages, sessions, pending := map[], map[], map[], map[], map[], map[];
      outbox, nonces, peers := map[], map[], map[];
    }

    // ----- Peers and nonces -----

    /** On a conflict the block flag stays as it is. */
    method UpsertFederationNode(node: NodeId, apiUrl: string, key: NodeAuth.PublicKey) returns (peer: NodeAuth.Peer)
      modifies this`peers
      ensures peers == old(peers)[node := peer]
      ensures peer == NodeAuth.Peer(apiUrl, key, node in old(peers) && old(peers)[node].blocked)
    {
      peer := NodeAuth.Peer(apiUrl, key, if node in peers then peers[node].blocked else false);
      peers := peers[node := peer];
    }

    method GetFederationNode(node: NodeId) returns (peer: Option<NodeAuth.Peer>)
      ensures peer == if node in peers then Some(peers[node]) else None
    {
      peer := if node in peers then Some(peers[node]) else None;
    }

    method ClaimNonce(node: NodeId, nonce: string, now: Time) returns (isFresh: bool)
      modifies this`nonces
      ensures isFresh <==> (node, nonce) !in old(nonces)
      ensures nonces == if (node, nonce) in old(nonces) then old(nonces) else old(nonces)[(node, nonce) := now]
      ensures nonces == Nonces.Claimed(old(nonces), (node, nonce), now)
    {
      isFresh := (node, nonce) !in nonces;
      if isFresh {
        nonces := nonces[(node, nonce) := now];
      }
    }

    method PurgeExpiredNonces(now: Time)
      modifies this`nonces
      ensures nonces == Nonces.Step(old(nonces), Nonces.Purge(now))
      ensures forall k :: k in nonces <==> k in old(nonces) && old(nonces)[k] >= now - 300 * SECOND
      ensures forall k :: k in nonces ==> nonces[k] == old(nonces)[k]
    {
      nonces := map k | k in nonces && nonces[k] >= now - 300 * SECOND :: nonces[k];
    }

    // ----- Outbox -----

    method EnqueueOutbox(uuid: Id, target: NodeId, logical: string, payload: Payload, now: Time) returns (r: Result<Id>)
      modifies this`outbox
      ensures r == if uuid in old(outbox) then Err else Ok(uuid)
      ensures r.Ok? ==>
        && outbox == old(outbox)[uuid := Outbox.Entry(
          target, logical, Outbox.Request(payload), 0, now, None, Outbox.Pending)]
        && Outbox.Due(outbox, now, uuid)
      ensures r.Err? ==> outbox == old(outbox)
    {
      if uuid in outbox {
        return Err;
      }
      outbox := outbox[uuid := Outbox.Entry(target, logical, Outbox.Request(payload), 0, now, None, Outbox.Pending)];
      r := Ok(uuid);
    }

    /** `ORDER BY next_attempt ASC LIMIT 100`: repeatedly takes an earliest due entry. */
    method FetchDueOutboxEntries(now: Time) returns (batch: seq<Id>)
      ensures Outbox.IsDueBatch(outbox, now, set id | id in batch) && Draining.Distinct(batch) && |batch| <= 100
      ensures |batch| < 100 ==> forall id :: Outbox.Due(outbox, now, id) ==> id in batch
      ensures forall i :: 0 <= i < |batch| ==> Outbox.Due(outbox, now, batch[i])
      ensures forall i, j :: 0 <= i < j < |batch| ==> outbox[batch[i]].nextAttempt <= outbox[batch[j]].nextAttempt
    {
      batch := [];
      var rest := set id | id in outbox && Outbox.Due(outbox, now, id);
      while |batch| < Outbox.BATCH && rest != {}
        invariant |batch| <= Outbox.BATCH && Draining.Distinct(batch)
        invariant forall id :: Outbox.Due(outbox, now, id) <==> id in rest || id in batch
        invariant forall id :: id in batch ==> id !in rest
        invariant forall i :: 0 <= i < |batch| ==> batch[i] in outbox
        invariant forall x, y :: x in batch && y in rest ==> outbox[x].nextAttempt <= outbox[y].nextAttempt
        invariant forall i, j :: 0 <= i < j < |batch| ==> outbox[batch[i]].nextAttempt <= outbox[batch[j]].nextAttempt
        decreases rest
      {
        var first := Earliest(rest);
        batch := batch + [first];
        rest := rest - {first};
      }
      DistinctSize(batch);
    }

    /** An entry of `ids` with the least next attempt. */
    method Earliest(ids: set<Id>) returns (first: Id)
      requires ids != {} && forall id :: id in ids ==> id in outbox
      ensures first in ids && forall id :: id in ids ==> outbox[first].nextAttempt <= outbox[id].nextAttempt
    {
      NonEmpty(ids);
      first :| first in ids;
      var rest := ids - {first};
      while rest != {}
        invariant rest <= ids && first in ids
        invariant forall id :: id in ids && id !in rest ==> outbox[first].nextAttempt <= outbox[id].nextAttempt
        decreases rest
      {
        NonEmpty(rest);
        var id :| id in rest;
        if outbox[id].nextAttempt < outbox[first].nextAttempt {
          first := id;
        }
        rest := rest - {id};
      }
    }

    method MarkOutboxDelivered(id: Id, now: Time)
      modifies this`outbox
      ensures id !in old(outbox) ==> outbox == old(outbox)
      ensures id in old(outbox) ==> outbox == old(outbox)[id := Outbox.MarkedDelivered(old(outbox)[id], now)]
    {
      if id in outbox {
        outbox := outbox[id := outbox[id].(status := Outbox.Delivered, lastAttempt := Some(now))];
      }
    }

    method MarkOutboxDeliveredByLogicalId(logical: string, now: Time)
      modifies this`outbox
      ensures outbox == Delivery.Acked(old(outbox), logical, now) && outbox.Keys == old(outbox).Keys
      ensures forall id :: id in outbox ==>
        outbox[id] == if old(outbox)[id].logical == logical && old(outbox)[id].status == Outbox.Pending
                      then old(outbox)[id].(status := Outbox.Delivered, lastAttempt := Some(now))
                      else old(outbox)[id]
    {
      outbox := map id | id in outbox ::
        if outbox[id].logical == logical && outbox[id].status == Outbox.Pending
        then outbox[id].(status := Outbox.Delivered, lastAttempt := Some(now)) else outbox[id];
      ghost var acked := Delivery.Acked(old(outbox), logical, now);
      assert forall id :: id in outbox <==> id in acked;
      assert forall id :: id in acked ==> outbox[id] == acked[id];
    }

    method RecordOutboxFailure(id: Id, attempt: nat, max: nat, now: Time)
      modifies this`outbox
      ensures id !in old(outbox) ==> outbox == old(outbox)
      ensures id in old(outbox) ==>
        outbox == old(outbox)[id := Outbox.FailureRecorded(old(outbox)[id], attempt, max, now)]
    {
      if id in outbox {
        if attempt >= max {
          outbox := outbox[id := outbox[id].(status := Outbox.Failed, lastAttempt := Some(now), attempts := attempt)];
        } else {
          var backoff := Outbox.Backoff(attempt);
          outbox := outbox[id := outbox[id].(
            attempts := attempt, lastAttempt := Some(now), nextAttempt := now + backoff * SECOND)];
        }
      }
    }

    // ----- Users and devices -----

    method GetLocalUserIdByUsername(name: string) returns (r: Option<Id>)
      ensures r.Some? ==> LocalNamed(Tables(), r.value, name)
      ensures r == None ==> forall u :: !LocalNamed(Tables(), u, name)
    {
      if exists u :: u in users && users[u].username == name && users[u].home == None {
        var u :| u in users && users[u].username == name && users[u].home == None;
        return Some(u);
      }
      r := None;
    }

    method UpsertShadowUser(uuid: Id, name: string, address: string, home: NodeId) returns (r: Result<Id>)
      requires Valid()
      modifies this`users
      ensures var s := Stmt.UpsertShadowUser(uuid, name, address, home);
        && Tables() == Exec(old(Tables()), s)
        && (r.Ok? <==> Accepts(old(Tables()), s))
        && (r.Ok? ==> AddressKnown(Tables(), address) && r.value == UserAt(Tables(), address))
      ensures r.Ok? ==>
        && r.value in users && users == old(users)[r.value := users[r.value]]
        && users[r.value].address == Some(address)
        && users[r.value] == if r.value in old(users) then old(users)[r.value].(username := name)
                             else User(name, Some(home), Some(address))
      ensures r.Err? ==> users == old(users)
      ensures Valid()
    {
      ExecKeepsValid(Tables(), Stmt.UpsertShadowUser(uuid, name, address, home));
      ShadowRow(Tables(), uuid, name, address, home);
      r := WriteShadowUser(uuid, name, address, home);
    }

    /** `INSERT ... ON CONFLICT (federated_address) DO UPDATE ... RETURNING id`. */
    method WriteShadowUser(uuid: Id, name: string, address: string, home: NodeId) returns (r: Result<Id>)
      requires UniqueAddresses(users)
      modifies this`users
      ensures var s := Stmt.UpsertShadowUser(uuid, name, address, home);
        && Tables() == Exec(old(Tables()), s)
        && (r.Ok? <==> Accepts(old(Tables()), s))
        && (r.Ok? ==> AddressKnown(Tables(), address) && r.value == UserAt(Tables(), address))
    {
      ghost var db := Tables();
      if exists u :: u in users && users[u].address == Some(address) {
        var u :| u in users && users[u].address == Some(address);
        RenameIs(db, uuid, name, address, home, u);
        if exists v :: v in users && users[v].username == name && v != u {
          return Err;
        }
        users := users[u := users[u].(username := name)];
        return Ok(u);
      }
      ShadowIs(db, uuid, name, address, home);
      if uuid in users || exists v :: v in users && users[v].username == name {
        return Err;
      }
      users := users[uuid := User(name, Some(home), Some(address))];
      r := Ok(uuid);
    }

    method UpsertShadowDevice(device: Id, owner: Id, pubkey: string) returns (ok: bool)
      requires Valid()
      modifies this`devices
      ensures var s := Stmt.UpsertShadowDevice(device, owner, pubkey);
        Tables() == Exec(old(Tables()), s) && (ok <==> Accepts(old(Tables()), s))
      ensures devices == if ok && device !in old(devices)
                         then old(devices)[device := Device(owner, pubkey)] else old(devices)
      ensures Valid()
    {
      ExecKeepsValid(Tables(), Stmt.UpsertShadowDevice(device, owner, pubkey));
      if device in devices {
        return true;
      }
      if owner !in users || exists d :: d in devices && devices[d] == Device(owner, pubkey) {
        return false;
      }
      devices := devices[device := Device(owner, pubkey)];
      ok := true;
    }

    // ----- Chats -----

    /** The SELECT of both chat routines. */
    method FindChat(pair: Chat) returns (r: Option<Id>)
      requires Valid()
      ensures r == if ChatKnown(Tables(), pair) then Some(ChatAt(Tables(), pair)) else None
    {
      if exists c :: c in chats && chats[c] == pair {
        var c :| c in chats && chats[c] == pair;
        return Some(c);
      }
      r := None;
    }

    /** The INSERT of both chat routines. */
    method InsertChat(uuid: Id, pair: Chat) returns (r: Result<Id>)
      requires Valid()
      modifies this`chats
      ensures var s := Stmt.InsertChat(uuid, pair.userA, pair.userB);
        Tables() == Exec(old(Tables()), s) && r == if Accepts(old(Tables()), s) then Ok(uuid) else Err
      ensures Valid()
    {
      ExecKeepsValid(Tables(), Stmt.InsertChat(uuid, pair.userA, pair.userB));
      if uuid in chats || pair.userA >= pair.userB || pair.userA !in users || pair.userB !in users
         || exists c :: c in chats && chats[c] == pair {
        return Err;
      }
      chats := chats[uuid := pair];
      r := Ok(uuid);
    }

    method GetOrCreateDirectChat(uuid: Id, x: Id, y: Id) returns (r: Result<Id>)
      requires Valid()
      modifies this`chats
      ensures (r, Tables()) == GetOrCreate(old(Tables()), Chats.ByUsers(x, y), uuid)
      ensures Valid()
    {
      var pair := if x < y then Chat(x, y) else Chat(y, x);
      var known := FindChat(pair);
      if known.Some? {
        return Ok(known.value);
      }
      r := InsertChat(uuid, pair);
    }

    /** `LEAST` and `GREATEST` of the two owners; a missing device counts for nothing. */
    method OwnersOf(d: Id, e: Id) returns (pair: Option<Chat>)
      ensures pair == Chats.Target(Tables(), Chats.ByDevices(d, e))
    {
      if d in devices && e in devices {
        var x, y := devices[d].owner, devices[e].owner;
        return Some(Chat(if x < y then x else y, if x < y then y else x));
      } else if d in devices {
        return Some(Chat(devices[d].owner, devices[d].owner));
      } else if e in devices {
        return Some(Chat(devices[e].owner, devices[e].owner));
      }
      pair := None;
    }

    method GetOrCreateChatId(uuid: Id, sender: Id, receiver: Id) returns (r: Result<Id>)
      requires Valid()
      modifies this`chats
      ensures (r, Tables()) == GetOrCreate(old(Tables()), Chats.ByDevices(sender, receiver), uuid)
      ensures Valid()
    {
      var pair := OwnersOf(sender, receiver);
      if pair == None {
        return Err;
      }
      var known := FindChat(pair.value);
      if known.Some? {
        return Ok(known.value);
      }
      r := InsertChat(uuid, pair.value);
    }

    // ----- Messages -----

    /** Stops at the first refused row and keeps the `done` rows before it; each row is
        undelivered and has the contents of its item.  The rows that are kept are those of
        the longest insertable prefix. */
    method InsertMessage(fromDevice: Id, fromUser: Id, msg: Outgoing, uuid: nat -> Id, now: Time)
      returns (ok: bool, ghost done: nat)
      requires Valid()
      modifies this`messages
      ensures done <= |msg.items| && (ok <==> done == |msg.items|)
      ensures Tables() == Draining.ExecAll(old(Tables()), LocalInserts(fromDevice, fromUser, msg, uuid, now, done))
      ensures AllAccepted(old(Tables()), fromDevice, fromUser, msg, uuid, now, done)
      ensures !ok ==> !Accepts(Tables(), LocalInsert(fromDevice, fromUser, msg, uuid, now, done))
      ensures ok <==> Insertable(old(Tables()), fromDevice, fromUser, msg, uuid, |msg.items|)
      ensures Insertable(old(Tables()), fromDevice, fromUser, msg, uuid, done)
      ensures !ok ==> !Insertable(old(Tables()), fromDevice, fromUser, msg, uuid, done + 1)
      ensures RowsPersist(old(messages), messages)
      ensures forall i :: 0 <= i < done ==>
        && uuid(i) !in old(messages) && uuid(i) in messages
        && messages[uuid(i)] == Message(
          Key(msg.logical, msg.items[i].toDevice), msg.chat, fromUser, fromDevice, msg.toUser,
          msg.items[i].header, msg.items[i].ciphertext, now, None)
        && uuid(i) in Draining.Undelivered(Tables(), msg.items[i].toDevice)
      ensures forall m :: m in messages ==> m in old(messages) || exists i :: 0 <= i < done && m == uuid(i)
      ensures Valid()
    {
      ok, done := InsertRows(fromDevice, fromUser, msg, uuid, now);
      AcceptedRows(old(Tables()), fromDevice, fromUser, msg, uuid, now, done);
      LongestPrefix(old(Tables()), fromDevice, fromUser, msg, uuid, now, done);
      ExecAllKeepsValid(old(Tables()), LocalInserts(fromDevice, fromUser, msg, uuid, now, done));
    }

    method InsertRows(fromDevice: Id, fromUser: Id, msg: Outgoing, uuid: nat -> Id, now: Time)
      returns (ok: bool, ghost done: nat)
      modifies this`messages
      ensures done <= |msg.items| && (ok <==> done == |msg.items|)
      ensures Tables() == Draining.ExecAll(old(Tables()), LocalInserts(fromDevice, fromUser, msg, uuid, now, done))
      ensures AllAccepted(old(Tables()), fromDevice, fromUser, msg, uuid, now, done)
      ensures !ok ==> !Accepts(Tables(), LocalInsert(fromDevice, fromUser, msg, uuid, now, done))
    {
      var i := 0;
      while i < |msg.items|
        invariant 0 <= i <= |msg.items|
        invariant Tables() == Draining.ExecAll(old(Tables()), LocalInserts(fromDevice, fromUser, msg, uuid, now, i))
        invariant AllAccepted(old(Tables()), fromDevice, fromUser, msg, uuid, now, i)
      {
        var row := Message(Key(msg.logical, msg.items[i].toDevice), msg.chat, fromUser, fromDevice, msg.toUser,
                           msg.items[i].header, msg.items[i].ciphertext, now, None);
        OneMore(old(Tables()), Tables(), fromDevice, fromUser, msg, uuid, now, i);
        var inserted := InsertRow(uuid(i), row);
        if !inserted {
          return false, i;
        }
        i := i + 1;
      }
      ok, done := true, i;
    }

    /** A plain INSERT of one row. */
    method InsertRow(uuid: Id, row: Message) returns (ok: bool)
      modifies this`messages
      ensures var s := Stmt.InsertMessage(uuid, row);
        Tables() == Exec(old(Tables()), s) && (ok <==> Accepts(old(Tables()), s))
    {
      if uuid in messages || (exists m :: m in messages && messages[m].key == row.key)
         || row.chat !in chats || row.fromUser !in users || row.toUser !in users
         || row.fromDevice !in devices || row.key.toDevice !in devices {
        return false;
      }
      messages := messages[uuid := row];
      ok := true;
    }

    method InsertFederatedMessage(uuid: Id, row: Message) returns (r: Result<bool>)
      requires Valid()
      modifies this`messages
      ensures var s := Stmt.InsertFederatedMessage(uuid, row);
        Tables() == Exec(old(Tables()), s) && (r.Ok? <==> Accepts(old(Tables()), s))
      ensures r.Ok? ==> (r.value <==> !Stored(old(Tables()), row.key))
      ensures messages == if r == Ok(true) then old(messages)[uuid := row] else old(messages)
      ensures Valid()
    {
      ExecKeepsValid(Tables(), Stmt.InsertFederatedMessage(uuid, row));
      if exists m :: m in messages && messages[m].key == row.key {
        return Ok(false);
      }
      if uuid in messages || row.chat !in chats || row.fromUser !in users || row.toUser !in users
         || row.fromDevice !in devices || row.key.toDevice !in devices {
        return Err;
      }
      messages := messages[uuid := row];
      r := Ok(true);
    }

    /** SELECT, then UPDATE. */
    method FetchPendingMessages(device: Id, now: Time) returns (batch: seq<Id>)
      requires Valid()
      modifies this`messages
      ensures Draining.IsBatch(old(Tables()), device, batch)
      ensures Tables() == Exec(old(Tables()), MarkDelivered(device, now))
      ensures Draining.Undelivered(Tables(), device) == {}
      ensures forall m :: m in batch <==>
        m in old(messages) && old(messages)[m].key.toDevice == device && old(messages)[m].deliveredAt == None
      ensures forall i, j :: 0 <= i < j < |batch| ==>
        batch[i] != batch[j] && old(messages)[batch[i]].createdAt <= old(messages)[batch[j]].createdAt
      ensures messages.Keys == old(messages).Keys
      ensures forall m :: m in messages ==>
        messages[m] == if m in batch then old(messages)[m].(deliveredAt := Some(now)) else old(messages)[m]
      ensures Valid()
    {
      ExecKeepsValid(Tables(), MarkDelivered(device, now));
      batch := SelectUndelivered(device);
      UpdateUndelivered(device, now);
      NothingUndelivered(old(Tables()), device, now);
    }

    method UpdateUndelivered(device: Id, now: Time)
      modifies this`messages
      ensures Tables() == Exec(old(Tables()), MarkDelivered(device, now)) && messages.Keys == old(messages).Keys
      ensures forall m :: m in messages ==>
        messages[m] == if m in Draining.Undelivered(old(Tables()), device)
                       then old(messages)[m].(deliveredAt := Some(now)) else old(messages)[m]
    {
      messages := map m | m in messages ::
        if messages[m].key.toDevice == device && messages[m].deliveredAt == None
        then messages[m].(deliveredAt := Some(now)) else messages[m];
    }

    /** `... ORDER BY created_at ASC`: repeatedly takes an oldest row. */
    method SelectUndelivered(device: Id) returns (batch: seq<Id>)
      ensures Draining.IsBatch(Tables(), device, batch)
    {
      batch := [];
      var rest := set m | m in messages && messages[m].key.toDevice == device && messages[m].deliveredAt == None;
      while rest != {}
        invariant forall m :: m in Draining.Undelivered(Tables(), device) <==> m in rest || m in batch
        invariant forall m :: m in batch ==> m !in rest
        invariant Draining.Distinct(batch)
        invariant forall i :: 0 <= i < |batch| ==> batch[i] in messages
        invariant forall x, y :: x in batch && y in rest ==> messages[x].createdAt <= messages[y].createdAt
        invariant forall i, j :: 0 <= i < j < |batch| ==> messages[batch[i]].createdAt <= messages[batch[j]].createdAt
        decreases rest
      {
        var first := Oldest(rest);
        batch := batch + [first];
        rest := rest - {first};
      }
    }

    method Oldest(ids: set<Id>) returns (first: Id)
      requires ids != {} && forall id :: id in ids ==> id in messages
      ensures first in ids && forall id :: id in ids ==> messages[first].createdAt <= messages[id].createdAt
    {
      NonEmpty(ids);
      first :| first in ids;
      var rest := ids - {first};
      while rest != {}
        invariant rest <= ids && first in ids
        invariant forall id :: id in ids && id !in rest ==> messages[first].createdAt <= messages[id].createdAt
        decreases rest
      {
        NonEmpty(rest);
        var id :| id in rest;
        if messages[id].createdAt < messages[first].createdAt {
          first := id;
        }
        rest := rest - {id};
      }
    }

    // ----- Sessions -----

    method GetPendingSessionById(id: Id, recipient: Id) returns (r: Option<PendingSession>)
      ensures r == if id in pending && pending[id].recipient == recipient then Some(pending[id]) else None
    {
      r := if id in pending && pending[id].recipient == recipient then Some(pending[id]) else None;
    }

    method InsertOrUpdateSession(uuid: Id, chat: Id, sender: Id, receiver: Id) returns (ok: bool)
      requires Valid()
      modifies this`sessions
      ensures var s := UpsertSession(uuid, Session(chat, sender, receiver));
        Tables() == Exec(old(Tables()), s) && (ok <==> Accepts(old(Tables()), s))
      ensures sessions == old(sessions) || sessions == old(sessions)[uuid := Session(chat, sender, receiver)]
      ensures ok ==> exists s :: s in sessions && sessions[s].sender == sender && sessions[s].receiver == receiver
      ensures Valid()
    {
      ExecKeepsValid(Tables(), UpsertSession(uuid, Session(chat, sender, receiver)));
      if exists s :: s in sessions && sessions[s].sender == sender && sessions[s].receiver == receiver {
        assert SessionKnown(Tables(), Session(chat, sender, receiver));
        return true;
      }
      assert !SessionKnown(Tables(), Session(chat, sender, receiver));
      if uuid in sessions || chat !in chats || sender !in devices || receiver !in devices {
        return false;
      }
      sessions := sessions[uuid := Session(chat, sender, receiver)];
      assert sessions[uuid].sender == sender;
      ok := true;
    }

    method DeletePendingSession(id: Id)
      requires Valid()
      modifies this`pending
      ensures Tables() == Exec(old(Tables()), DeletePending(id)) && pending == old(pending) - {id}
      ensures Valid()
    {
      ExecKeepsValid(Tables(), DeletePending(id));
      pending := pending - {id};
    }
  }

  // ----- What the functions are proved against -----

  datatype Outgoing = Outgoing(logical: string, chat: Id, toUser: Id, toAddress: Option<string>, items: seq<Item>)

  function LocalInsert(fromDevice: Id, fromUser: Id, msg: Outgoing, uuid: nat -> Id, now: Time, i: nat): (s: Stmt)
    requires i < |msg.items|
    ensures s.InsertMessage? && s.row.key == Key(msg.logical, msg.items[i].toDevice)
  {
    Stmt.InsertMessage(
      uuid(i),
      Message(Key(msg.logical, msg.items[i].toDevice), msg.chat, fromUser, fromDevice, msg.toUser,
              msg.items[i].header, msg.items[i].ciphertext, now, None))
  }

  function LocalInserts(fromDevice: Id, fromUser: Id, msg: Outgoing, uuid: nat -> Id, now: Time, n: nat): seq<Stmt>
    requires n <= |msg.items|
  {
    if n == 0 then []
    else
      LocalInserts(fromDevice, fromUser, msg, uuid, now, n - 1) +
      [LocalInsert(fromDevice, fromUser, msg, uuid, now, n - 1)]
  }

  /** None of the first `n` inserts is refused. */
  ghost predicate AllAccepted(
    db: Db, fromDevice: Id, fromUser: Id, msg: Outgoing, uuid: nat -> Id, now: Time, n: nat)
    requires n <= |msg.items|
  {
    n == 0 ||
    (AllAccepted(db, fromDevice, fromUser, msg, uuid, now, n - 1) &&
     Accepts(Draining.ExecAll(db, LocalInserts(fromDevice, fromUser, msg, uuid, now, n - 1)),
             LocalInsert(fromDevice, fromUser, msg, uuid, now, n - 1)))
  }

  lemma OneMore(
    db: Db, db': Db, fromDevice: Id, fromUser: Id, msg: Outgoing, uuid: nat -> Id, now: Time, i: nat)
    requires i < |msg.items| && AllAccepted(db, fromDevice, fromUser, msg, uuid, now, i)
    requires db' == Draining.ExecAll(db, LocalInserts(fromDevice, fromUser, msg, uuid, now, i))
    ensures var s := LocalInsert(fromDevice, fromUser, msg, uuid, now, i);
      && Draining.ExecAll(db, LocalInserts(fromDevice, fromUser, msg, uuid, now, i + 1)) == Exec(db', s)
      && (Accepts(db', s) ==> AllAccepted(db, fromDevice, fromUser, msg, uuid, now, i + 1))
  {
    var stmts := LocalInserts(fromDevice, fromUser, msg, uuid, now, i);
    ExecAllSnoc(db, stmts, LocalInsert(fromDevice, fromUser, msg, uuid, now, i));
  }

  /** Accepted inserts add exactly one undelivered row for each item, with the item's own
      contents and the sender, recipient and chat of the message. */
  lemma AcceptedRows(
    db: Db, fromDevice: Id, fromUser: Id, msg: Outgoing, uuid: nat -> Id, now: Time, n: nat)
    requires n <= |msg.items| && AllAccepted(db, fromDevice, fromUser, msg, uuid, now, n)
    ensures var db' := Draining.ExecAll(db, LocalInserts(fromDevice, fromUser, msg, uuid, now, n));
      && db' == db.(messages := db'.messages) && RowsPersist(db.messages, db'.messages)
      && (forall i :: 0 <= i < n ==>
        && uuid(i) !in db.messages && uuid(i) in db'.messages
        && db'.messages[uuid(i)] == Message(
          Key(msg.logical, msg.items[i].toDevice), msg.chat, fromUser, fromDevice, msg.toUser,
          msg.items[i].header, msg.items[i].ciphertext, now, None)
        && uuid(i) in Draining.Undelivered(db', msg.items[i].toDevice))
      && (forall m :: m in db'.messages ==> m in db.messages || exists i :: 0 <= i < n && m == uuid(i))
  {
    RowsAdded(db, fromDevice, fromUser, msg, uuid, now, n);
  }

  lemma {:induction false} RowsAdded(
    db: Db, fromDevice: Id, fromUser: Id, msg: Outgoing, uuid: nat -> Id, now: Time, n: nat)
    requires n <= |msg.items| && AllAccepted(db, fromDevice, fromUser, msg, uuid, now, n)
    ensures var db' := Draining.ExecAll(db, LocalInserts(fromDevice, fromUser, msg, uuid, now, n));
      && db' == db.(messages := db'.messages) && RowsPersist(db.messages, db'.messages)
      && (forall i :: 0 <= i < n ==>
        && uuid(i) !in db.messages && uuid(i) in db'.messages
        && db'.messages[uuid(i)] == LocalInsert(fromDevice, fromUser, msg, uuid, now, i).row)
      && (forall m :: m in db'.messages ==> m in db.messages || exists i :: 0 <= i < n && m == uuid(i))
  {
    if n > 0 {
      var stmts := LocalInserts(fromDevice, fromUser, msg, uuid, now, n - 1);
      RowsAdded(db, fromDevice, fromUser, msg, uuid, now, n - 1);
      ExecAllSnoc(db, stmts, LocalInsert(fromDevice, fromUser, msg, uuid, now, n - 1));
    }
  }

  /** The users, devices and chat of the message exist, and for each of its first `n` items
      the device exists and has no other item of the message, stored or among these. */
  ghost predicate Insertable(db: Db, fromDevice: Id, fromUser: Id, msg: Outgoing, uuid: nat -> Id, n: nat)
    requires n <= |msg.items|
  {
    && (n > 0 ==> msg.chat in db.chats && fromUser in db.users && msg.toUser in db.users && fromDevice in db.devices)
    && (forall i :: 0 <= i < n ==>
      && msg.items[i].toDevice in db.devices && !Stored(db, Key(msg.logical, msg.items[i].toDevice))
      && uuid(i) !in db.messages)
    && (forall i, j :: 0 <= i < j < n ==> msg.items[i].toDevice != msg.items[j].toDevice && uuid(i) != uuid(j))
  }

  /** The rows with the first `n` generated identifiers are new, and carry the keys of the
      first `n` items. */
  ghost predicate KeysAdded(db: Db, db': Db, msg: Outgoing, uuid: nat -> Id, n: nat)
    requires n <= |msg.items|
  {
    && RowsPersist(db.messages, db'.messages)
    && (forall i :: 0 <= i < n ==>
      uuid(i) in db'.messages && db'.messages[uuid(i)].key == Key(msg.logical, msg.items[i].toDevice))
    && (forall m :: m in db'.messages ==> m in db.messages || exists i :: 0 <= i < n && m == uuid(i))
  }

  lemma NewIdIff(db: Db, db': Db, msg: Outgoing, uuid: nat -> Id, n: nat)
    requires n <= |msg.items| && KeysAdded(db, db', msg, uuid, n)
    ensures uuid(n) !in db'.messages <==> uuid(n) !in db.messages && forall i :: 0 <= i < n ==> uuid(i) != uuid(n)
  {
    var m := uuid(n);
    assert m in db.messages ==> m in db'.messages && db'.messages[m] == db.messages[m];
    if m !in db'.messages {
      forall i | 0 <= i < n ensures uuid(i) != uuid(n) {
        assert uuid(i) in db'.messages;
      }
    } else if uuid(n) !in db.messages {
      var i :| 0 <= i < n && uuid(n) == uuid(i);
    }
  }

  lemma NewKeyIff(db: Db, db': Db, msg: Outgoing, uuid: nat -> Id, n: nat, device: Id)
    requires n <= |msg.items| && KeysAdded(db, db', msg, uuid, n)
    ensures !Stored(db', Key(msg.logical, device)) <==>
      && !Stored(db, Key(msg.logical, device))
      && forall i :: 0 <= i < n ==> msg.items[i].toDevice != device
  {
    var key := Key(msg.logical, device);
    if Stored(db, key) {
      var m :| m in db.messages && db.messages[m].key == key;
      assert m in db'.messages;
    } else if Stored(db', key) {
      var m :| m in db'.messages && db'.messages[m].key == key;
      var i :| 0 <= i < n && m == uuid(i);
      assert msg.items[i].toDevice == device;
    } else {
      forall i | 0 <= i < n ensures msg.items[i].toDevice != device {
        var m := uuid(i);
        assert m in db'.messages && db'.messages[m].key == Key(msg.logical, msg.items[i].toDevice);
      }
    }
  }

  /** After the first `n` inserts were accepted, the next one is exactly when its item is
      insertable beside theirs. */
  lemma NextAccepted(
    db: Db, db': Db, fromDevice: Id, fromUser: Id, msg: Outgoing, uuid: nat -> Id, now: Time, n: nat)
    requires n < |msg.items| && Insertable(db, fromDevice, fromUser, msg, uuid, n)
    requires KeysAdded(db, db', msg, uuid, n) && db' == db.(messages := db'.messages)
    ensures Accepts(db', LocalInsert(fromDevice, fromUser, msg, uuid, now, n)) <==>
      Insertable(db, fromDevice, fromUser, msg, uuid, n + 1)
  {
    NewIdIff(db, db', msg, uuid, n);
    NewKeyIff(db, db', msg, uuid, n, msg.items[n].toDevice);
  }

  lemma NextIff(db: Db, fromDevice: Id, fromUser: Id, msg: Outgoing, uuid: nat -> Id, now: Time, n: nat)
    requires n < |msg.items| && AllAccepted(db, fromDevice, fromUser, msg, uuid, now, n)
    requires Insertable(db, fromDevice, fromUser, msg, uuid, n)
    ensures AllAccepted(db, fromDevice, fromUser, msg, uuid, now, n + 1) <==>
      Insertable(db, fromDevice, fromUser, msg, uuid, n + 1)
  {
    RowsAdded(db, fromDevice, fromUser, msg, uuid, now, n);
    var db' := Draining.ExecAll(db, LocalInserts(fromDevice, fromUser, msg, uuid, now, n));
    NextAccepted(db, db', fromDevice, fromUser, msg, uuid, now, n);
  }

  lemma {:induction false} AcceptedInsertable(
    db: Db, fromDevice: Id, fromUser: Id, msg: Outgoing, uuid: nat -> Id, now: Time, n: nat)
    requires n <= |msg.items| && AllAccepted(db, fromDevice, fromUser, msg, uuid, now, n)
    ensures Insertable(db, fromDevice, fromUser, msg, uuid, n)
  {
    if n > 0 {
      AcceptedInsertable(db, fromDevice, fromUser, msg, uuid, now, n - 1);
      NextIff(db, fromDevice, fromUser, msg, uuid, now, n - 1);
    }
  }

  lemma {:induction false} InsertableAccepted(
    db: Db, fromDevice: Id, fromUser: Id, msg: Outgoing, uuid: nat -> Id, now: Time, n: nat)
    requires n <= |msg.items| && Insertable(db, fromDevice, fromUser, msg, uuid, n)
    ensures AllAccepted(db, fromDevice, fromUser, msg, uuid, now, n)
  {
    if n > 0 {
      InsertableAccepted(db, fromDevice, fromUser, msg, uuid, now, n - 1);
      NextIff(db, fromDevice, fromUser, msg, uuid, now, n - 1);
    }
  }

  /** All inserts are accepted exactly when the message is insertable. */
  lemma AcceptedIff(
    db: Db, fromDevice: Id, fromUser: Id, msg: Outgoing, uuid: nat -> Id, now: Time, n: nat)
    requires n <= |msg.items|
    ensures AllAccepted(db, fromDevice, fromUser, msg, uuid, now, n) <==>
      Insertable(db, fromDevice, fromUser, msg, uuid, n)
  {
    if AllAccepted(db, fromDevice, fromUser, msg, uuid, now, n) {
      AcceptedInsertable(db, fromDevice, fromUser, msg, uuid, now, n);
    } else if Insertable(db, fromDevice, fromUser, msg, uuid, n) {
      InsertableAccepted(db, fromDevice, fromUser, msg, uuid, now, n);
    }
  }

  /** A call of a chat routine whose two statements run back to back. */
  ghost function GetOrCreate(db: Db, routine: Chats.Routine, uuid: Id): (Result<Id>, Db) {
    var (place, _) := Chats.Advance(db, Chats.Call(routine, Chats.Selecting), uuid);
    var (end, db') := if place.Inserting? then Chats.Advance(db, Chats.Call(routine, place), uuid) else (place, db);
    (if end.Done? then Ok(end.chat) else Err, db')
  }

  lemma GetOrCreateGives(db: Db, routine: Chats.Routine, uuid: Id)
    requires Valid(db) && GetOrCreate(db, routine, uuid).0.Ok?
    ensures var (r, db') := GetOrCreate(db, routine, uuid);
      Valid(db') && Chats.CallOk(db', Chats.Call(routine, Chats.Done(r.value)))
  {
    var call := Chats.Call(routine, Chats.Selecting);
    Chats.AdvanceOk(db, call, uuid);
    Chats.AdvanceOk(db, call.(place := Chats.Inserting), uuid);
  }

  lemma FindsChat(db: Db, routine: Chats.Routine, chat: Id, uuid: Id)
    requires ChatsOk(db) && chat in db.chats
    requires Chats.Members(db, routine) == {db.chats[chat].userA, db.chats[chat].userB}
    ensures GetOrCreate(db, routine, uuid) == (Ok(chat), db)
  {
  }

  /** With the two users: their chat if there is one; otherwise it is added, unless they are
      the same, one does not exist, or the identifier is in use. */
  lemma GetOrCreateIs(db: Db, x: Id, y: Id, uuid: Id)
    requires ChatsOk(db)
    ensures var (r, db') := GetOrCreate(db, Chats.ByUsers(x, y), uuid);
      var pair := if x < y then Chat(x, y) else Chat(y, x);
      if ChatKnown(db, pair) then
        db' == db && r.Ok? && r.value in db.chats && db.chats[r.value] == pair
      else if x != y && x in db.users && y in db.users && uuid !in db.chats then
        r == Ok(uuid) && db' == db.(chats := db.chats[uuid := pair])
      else
        r == Err && db' == db
  {
  }

  /** With two devices it is the same for their owners; with a missing one it fails. */
  lemma GetOrCreateByDevices(db: Db, d: Id, e: Id, uuid: Id)
    requires ChatsOk(db)
    ensures GetOrCreate(db, Chats.ByDevices(d, e), uuid) ==
      if d in db.devices && e in db.devices
      then GetOrCreate(db, Chats.ByUsers(db.devices[d].owner, db.devices[e].owner), uuid)
      else (Err, db)
  {
  }

  /** Called again, for the same two users by either routine, it returns the same chat
      and changes nothing. */
  lemma GetOrCreateAgain(db: Db, routine: Chats.Routine, uuid: Id, again: Chats.Routine, other: Id)
    requires Valid(db) && GetOrCreate(db, routine, uuid).0.Ok?
    requires var db' := GetOrCreate(db, routine, uuid).1; Chats.Members(db', again) == Chats.Members(db', routine)
    ensures var (r, db') := GetOrCreate(db, routine, uuid); GetOrCreate(db', again, other) == (r, db')
  {
    var (r, db') := GetOrCreate(db, routine, uuid);
    GetOrCreateGives(db, routine, uuid);
    Chats.MembersOfChat(db', Chats.Call(routine, Chats.Done(r.value)));
    FindsChat(db', again, r.value, other);
  }

  /** The upsert of a shadow whose address is known only renames its one row. */
  lemma RenameIs(db: Db, uuid: Id, name: string, address: string, home: NodeId, u: Id)
    requires UniqueAddresses(db.users) && u in db.users && db.users[u].address == Some(address)
    ensures var s := Stmt.UpsertShadowUser(uuid, name, address, home);
      var db' := Exec(db, s);
      && (Accepts(db, s) <==> forall v :: v in db.users && db.users[v].username == name ==> v == u)
      && (Accepts(db, s) ==> db' == db.(users := db.users[u := db.users[u].(username := name)]))
      && AddressKnown(db', address) && UserAt(db', address) == u
  {
    assert AddressKnown(db, address) && UserAt(db, address) == u;
    var db' := Exec(db, Stmt.UpsertShadowUser(uuid, name, address, home));
    assert u in db'.users && db'.users[u].address == Some(address);
  }

  /** The upsert of a shadow whose address is not known adds one row. */
  lemma ShadowIs(db: Db, uuid: Id, name: string, address: string, home: NodeId)
    requires !AddressKnown(db, address)
    ensures var s := Stmt.UpsertShadowUser(uuid, name, address, home);
      var db' := Exec(db, s);
      && (Accepts(db, s) <==> uuid !in db.users && !NameTaken(db, name))
      && (Accepts(db, s) ==>
        && db' == db.(users := db.users[uuid := User(name, Some(home), Some(address))])
        && AddressKnown(db', address) && UserAt(db', address) == uuid)
  {
    var db' := Exec(db, Stmt.UpsertShadowUser(uuid, name, address, home));
    if Accepts(db, Stmt.UpsertShadowUser(uuid, name, address, home)) {
      assert uuid in db'.users && db'.users[uuid].address == Some(address);
    }
  }

  /** An accepted upsert writes the one row with the address, and keeps the home of a known one. */
  lemma ShadowRow(db: Db, uuid: Id, name: string, address: string, home: NodeId)
    requires UniqueAddresses(db.users)
    ensures var s := Stmt.UpsertShadowUser(uuid, name, address, home);
      Accepts(db, s) ==>
        var db' := Exec(db, s);
        && AddressKnown(db', address)
        && var u := UserAt(db', address);
        && db'.users == db.users[u := db'.users[u]] && db'.users[u].address == Some(address)
        && db'.users[u] == if u in db.users then db.users[u].(username := name)
                           else User(name, Some(home), Some(address))
  {
    if AddressKnown(db, address) {
      RenameIs(db, uuid, name, address, home, UserAt(db, address));
    } else {
      ShadowIs(db, uuid, name, address, home);
    }
  }

  lemma NothingUndelivered(db: Db, device: Id, now: Time)
    ensures Draining.Undelivered(Exec(db, MarkDelivered(device, now)), device) == {}
  {
  }

  lemma {:induction false} ExecAllSnoc(db: Db, stmts: seq<Stmt>, s: Stmt)
    ensures Draining.ExecAll(db, stmts + [s]) == Exec(Draining.ExecAll(db, stmts), s)
    decreases |stmts|
  {
    if stmts == [] {
      assert stmts + [s] == [s] && [s][1..] == [];
    } else {
      assert (stmts + [s])[0] == stmts[0] && (stmts + [s])[1..] == stmts[1..] + [s];
      ExecAllSnoc(Exec(db, stmts[0]), stmts[1..], s);
    }
  }

  lemma {:induction false} ExecAllKeepsValid(db: Db, stmts: seq<Stmt>)
    requires Schema.Valid(db)
    ensures Schema.Valid(Draining.ExecAll(db, stmts))
    decreases |stmts|
  {
    if stmts != [] {
      ExecKeepsValid(db, stmts[0]);
      ExecAllKeepsValid(Exec(db, stmts[0]), stmts[1..]);
    }
  }

  /** Where an insert is refused, the message is insertable no further. */
  lemma StopsWhere(db: Db, fromDevice: Id, fromUser: Id, msg: Outgoing, uuid: nat -> Id, now: Time, done: nat)
    requires done < |msg.items|
    requires !Accepts(
      Draining.ExecAll(db, LocalInserts(fromDevice, fromUser, msg, uuid, now, done)),
      LocalInsert(fromDevice, fromUser, msg, uuid, now, done))
    ensures !Insertable(db, fromDevice, fromUser, msg, uuid, done + 1)
  {
    AcceptedIff(db, fromDevice, fromUser, msg, uuid, now, done + 1);
    assert !AllAccepted(db, fromDevice, fromUser, msg, uuid, now, done + 1);
  }

  /** The inserts go on for as long as the message is insertable. */
  lemma LongestPrefix(db: Db, fromDevice: Id, fromUser: Id, msg: Outgoing, uuid: nat -> Id, now: Time, done: nat)
    requires done <= |msg.items| && AllAccepted(db, fromDevice, fromUser, msg, uuid, now, done)
    requires done < |msg.items| ==> !Accepts(
      Draining.ExecAll(db, LocalInserts(fromDevice, fromUser, msg, uuid, now, done)),
      LocalInsert(fromDevice, fromUser, msg, uuid, now, done))
    ensures Insertable(db, fromDevice, fromUser, msg, uuid, done)
    ensures done < |msg.items| ==> !Insertable(db, fromDevice, fromUser, msg, uuid, done + 1)
    ensures done == |msg.items| <==> Insertable(db, fromDevice, fromUser, msg, uuid, |msg.items|)
  {
    AcceptedIff(db, fromDevice, fromUser, msg, uuid, now, done);
    if done < |msg.items| {
      StopsWhere(db, fromDevice, fromUser, msg, uuid, now, done);
      InsertablePrefix(db, fromDevice, fromUser, msg, uuid, done + 1, |msg.items|);
    }
  }

  lemma InsertablePrefix(db: Db, fromDevice: Id, fromUser: Id, msg: Outgoing, uuid: nat -> Id, m: nat, n: nat)
    requires m <= n <= |msg.items| && !Insertable(db, fromDevice, fromUser, msg, uuid, m)
    ensures !Insertable(db, fromDevice, fromUser, msg, uuid, n)
  {
  }

  lemma NonEmpty(ids: set<Id>)
    ensures ids == {} || exists id :: id in ids
  {
    if !exists id :: id in ids {
      assert ids == {};
    }
  }

  lemma {:induction false} DistinctSize(ids: seq<Id>)
    requires Draining.Distinct(ids)
    ensures |set id | id in ids| == |ids|
  {
    if ids != [] {
      var last, front := ids[|ids| - 1], ids[..|ids| - 1];
      DistinctSize(front);
      assert (set id | id in ids) == (set id | id in front) + {last};
    } else {
      assert (set id | id in ids) == {};
    }
  }
}
