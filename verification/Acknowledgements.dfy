/** `POST /s2s/ack` on the sending node: it marks every pending entry of a logical
    identifier delivered, whatever its target. */
module Acknowledgements {
  import opened Schema
  import opened ReceivePipeline
  import opened Codec
  import opened Delivery
  import Outbox
  import Uninterrupted

  /** A world in which node `n` has queue `q` and its letter `l` has been answered. */
  ghost predicate Consistent(w: World, n: NodeId, q: Outbox.Queue, req: Req, l: Letter) {
    && WorldOk(w) && n in w.nodes && w.nodes[n].queue == q
    && req.from == n && req in w.sent && w.sent[req] == l && Answered(w, req)
  }

  // ----- What is not vouched for need not be stored -----

  ghost function WithoutKey(db: Db, key: Key): Db {
    db.(messages := map m | m in db.messages && db.messages[m].key != key :: db.messages[m])
  }

  lemma WithoutKeyOk(db: Db, key: Key)
    requires Valid(db)
    ensures Valid(WithoutKey(db, key)) && !Stored(WithoutKey(db, key), key)
    ensures forall k :: k != key && Stored(db, k) ==> Stored(WithoutKey(db, key), k)
  {
    var db' := WithoutKey(db, key);
    forall m | m in db'.messages ensures RefsOk(db', db'.messages[m]) {
      assert RefsOk(db, db.messages[m]);
    }
    forall k | k != key && Stored(db, k) ensures Stored(db', k) {
      var m :| m in db.messages && db.messages[m].key == k;
      assert m in db'.messages && db'.messages[m].key == k;
    }
  }

  ghost function Idle(): Outbox.Queue {
    Outbox.Queue(0, 0, map[], map[])
  }

  /** The tables of `m` without `key` at `target`, and no queue but that of `n`. */
  ghost function TrimmedNode(w: World, n: NodeId, m: NodeId, target: NodeId, key: Key): Node
    requires m in w.nodes
  {
    Node(if m == target then WithoutKey(w.nodes[m].db, key) else w.nodes[m].db,
         if m == n then w.nodes[m].queue else Idle())
  }

  /** The world in which only letter `req` was ever sent, without `key` at `target` and, if
      `gone`, without that node. */
  ghost function Trimmed(w: World, n: NodeId, req: Req, target: NodeId, key: Key, gone: bool): World
    requires req in w.sent
  {
    var nodes := map m | m in w.nodes && !(gone && m == target) :: TrimmedNode(w, n, m, target, key);
    World(nodes, map[req := w.sent[req]],
          map h | h in w.handlers && w.handlers[h].req == req && w.handlers[h].pc.Replied? :: w.handlers[h],
          map[], set m, r | m in nodes && r in nodes[m].db.messages :: RowId(m, r), 0)
  }

  /** Nothing the sender knows speaks for `key` at `target`, or, if `gone`, for that node. */
  ghost predicate Unknown(n: NodeId, q: Outbox.Queue, l: Letter, target: NodeId, key: Key, gone: bool) {
    if gone then !Heard(n, q, l, target) else !Vouches(q, l, target, key)
  }

  lemma TrimmedTables(w: World, n: NodeId, req: Req, target: NodeId, key: Key, gone: bool)
    requires TablesOk(w) && req in w.sent
    ensures TablesOk(Trimmed(w, n, req, target, key, gone))
  {
    if target in w.nodes {
      WithoutKeyOk(w.nodes[target].db, key);
    }
  }

  lemma TrimmedQueues(w: World, n: NodeId, req: Req, target: NodeId, key: Key, gone: bool)
    requires QueuesOk(w) && LettersOk(w) && n in w.nodes && req in w.sent && req.from == n && !(gone && n == target)
    ensures var v := Trimmed(w, n, req, target, key, gone); QueuesOk(v) && LettersOk(v)
  {
    var v := Trimmed(w, n, req, target, key, gone);
    assert LetterOk(w, req, w.sent[req]) && QueueOk(w, n, w.nodes[n].queue);
    forall m | m in v.nodes ensures QueueOk(v, m, v.nodes[m].queue) {
    }
  }

  lemma KeptStored(db: Db, body: Payload, key: Key)
    requires Valid(db) && !HasKey(body, key) && PrefixStored(db, body, |body.items|)
    ensures PrefixStored(WithoutKey(db, key), body, |body.items|)
  {
    WithoutKeyOk(db, key);
  }

  lemma RepliedWithoutKey(job: Job, pc: Pc, db: Db, key: Key)
    requires Valid(db) && pc.Replied? && PcOk(job, pc, db) && !HasKey(job.body, key)
    ensures PcOk(job, pc, WithoutKey(db, key))
  {
    KeptStored(db, job.body, key);
  }

  /** What becomes of the tables of a node that is heard of. */
  lemma TrimmedAt(w: World, n: NodeId, req: Req, target: NodeId, key: Key, gone: bool, m: NodeId)
    requires req in w.sent && m in w.nodes && !(gone && m == target)
    ensures var v := Trimmed(w, n, req, target, key, gone);
      m in v.nodes && v.nodes[m].db == if m == target then WithoutKey(w.nodes[m].db, key) else w.nodes[m].db
  {
  }

  lemma TrimmedHandler(w: World, n: NodeId, req: Req, target: NodeId, key: Key, gone: bool, h: Handler)
    requires TablesOk(w) && n in w.nodes && req in w.sent && HandlerOk(w, h) && h.req == req && h.pc.Replied?
    requires Unknown(n, w.nodes[n].queue, w.sent[req], target, key, gone)
    ensures HandlerOk(Trimmed(w, n, req, target, key, gone), h)
  {
    var l := w.sent[req];
    TrimmedAt(w, n, req, target, key, gone, l.target);
    if l.target == target {
      RepliedWithoutKey(JobOf(w, h), h.pc, w.nodes[target].db, key);
    }
  }

  lemma TrimmedHandlers(w: World, n: NodeId, req: Req, target: NodeId, key: Key, gone: bool)
    requires TablesOk(w) && HandlersOk(w) && n in w.nodes && req in w.sent
    requires Unknown(n, w.nodes[n].queue, w.sent[req], target, key, gone)
    ensures HandlersOk(Trimmed(w, n, req, target, key, gone))
  {
    var v := Trimmed(w, n, req, target, key, gone);
    forall h | h in v.handlers ensures HandlerOk(v, v.handlers[h]) {
      TrimmedHandler(w, n, req, target, key, gone, w.handlers[h]);
    }
  }

  lemma TrimmedEntry(w: World, n: NodeId, req: Req, target: NodeId, key: Key, gone: bool, id: Id)
    requires TablesOk(w) && n in w.nodes && req in w.sent && id in w.nodes[n].queue.outbox
    requires Unknown(n, w.nodes[n].queue, w.sent[req], target, key, gone)
    requires var e := w.nodes[n].queue.outbox[id]; e.status == Outbox.Delivered && EntryStored(w, e)
    ensures EntryStored(Trimmed(w, n, req, target, key, gone), w.nodes[n].queue.outbox[id])
  {
    var e := w.nodes[n].queue.outbox[id];
    assert DeliveredTo(w.nodes[n].queue, id, e.target);
    TrimmedAt(w, n, req, target, key, gone, e.target);
    if e.target == target {
      KeptStored(w.nodes[target].db, e.body.payload, key);
    }
  }

  lemma TrimmedDelivered(w: World, n: NodeId, req: Req, target: NodeId, key: Key, gone: bool)
    requires TablesOk(w) && n in w.nodes && req in w.sent && StoredAt(w, w.nodes[n].queue.outbox)
    requires Unknown(n, w.nodes[n].queue, w.sent[req], target, key, gone)
    ensures DeliveredOk(Trimmed(w, n, req, target, key, gone))
  {
    var v := Trimmed(w, n, req, target, key, gone);
    var outbox := w.nodes[n].queue.outbox;
    forall id | id in outbox && outbox[id].status == Outbox.Delivered ensures EntryStored(v, outbox[id]) {
      TrimmedEntry(w, n, req, target, key, gone, id);
    }
  }

  lemma TrimmedHistory(w: World, n: NodeId, req: Req, target: NodeId, key: Key, gone: bool)
    requires req in w.sent && Answered(w, req)
    ensures var v := Trimmed(w, n, req, target, key, gone);
      RowsOk(v) && LocalOk(v) && Accounted(v) && Answered(v, req)
  {
    var v := Trimmed(w, n, req, target, key, gone);
    var h :| h in w.handlers && w.handlers[h].req == req && w.handlers[h].pc.Replied?;
    assert h in v.handlers && v.handlers[h] == w.handlers[h];
  }

  lemma TrimmedOk(w: World, n: NodeId, req: Req, target: NodeId, key: Key, gone: bool)
    requires WorldOk(w) && n in w.nodes && req in w.sent && req.from == n && Answered(w, req)
    requires Unknown(n, w.nodes[n].queue, w.sent[req], target, key, gone)
    ensures WorldOk(Trimmed(w, n, req, target, key, gone)) && Answered(Trimmed(w, n, req, target, key, gone), req)
  {
    TrimmedTables(w, n, req, target, key, gone);
    TrimmedQueues(w, n, req, target, key, gone);
    TrimmedHandlers(w, n, req, target, key, gone);
    TrimmedDelivered(w, n, req, target, key, gone);
    TrimmedHistory(w, n, req, target, key, gone);
  }

  lemma TrimmedConsistent(
    w: World, n: NodeId, q: Outbox.Queue, req: Req, l: Letter, target: NodeId, key: Key, gone: bool)
    requires Consistent(w, n, q, req, l) && Unknown(n, q, l, target, key, gone)
    ensures Consistent(Trimmed(w, n, req, target, key, gone), n, q, req, l)
  {
    TrimmedOk(w, n, req, target, key, gone);
  }

  /** An entry that is not vouched for is unstored in some consistent world. */
  lemma UnvouchedUnstored(w: World, n: NodeId, q: Outbox.Queue, req: Req, l: Letter, e: Outbox.Entry) returns (v: World)
    requires Consistent(w, n, q, req, l) && !Vouched(n, q, l, e)
    ensures Consistent(v, n, q, req, l) && !EntryStored(v, e)
  {
    v := w;
    if e.body.Request? {
      var body := e.body.payload;
      if !Heard(n, q, l, e.target) {
        TrimmedConsistent(w, n, q, req, l, e.target, Key("", 0), true);
        v := Trimmed(w, n, req, e.target, Key("", 0), true);
      } else {
        var i :| 0 <= i < |body.items| && !Vouches(q, l, e.target, ItemKey(body, i));
        TrimmedConsistent(w, n, q, req, l, e.target, ItemKey(body, i), false);
        v := Trimmed(w, n, req, e.target, ItemKey(body, i), false);
        if e.target in w.nodes {
          WithoutKeyOk(w.nodes[e.target].db, ItemKey(body, i));
        }
      }
    }
  }

  ghost predicate AckSafe(n: NodeId, q: Outbox.Queue, req: Req, l: Letter, logical: string, now: Time) {
    forall v :: Consistent(v, n, q, req, l) ==> StoredAt(v, Acked(q.outbox, logical, now))
  }

  lemma UnvouchedIsUnsafe(w: World, n: NodeId, req: Req, logical: string, now: Time, id: Id) returns (v: World)
    requires n in w.nodes && req in w.sent && Consistent(w, n, w.nodes[n].queue, req, w.sent[req])
    requires var q := w.nodes[n].queue;
      id in q.outbox && AckHits(q.outbox[id], logical) && !Vouched(n, q, w.sent[req], q.outbox[id])
    ensures var q := w.nodes[n].queue;
      Consistent(v, n, q, req, w.sent[req]) && !StoredAt(v, Acked(q.outbox, logical, now))
  {
    var q := w.nodes[n].queue;
    v := UnvouchedUnstored(w, n, q, req, w.sent[req], q.outbox[id]);
    assert Acked(q.outbox, logical, now)[id] == Outbox.MarkedDelivered(q.outbox[id], now);
  }

  /** After its letter was answered, an acknowledgement keeps "delivered means stored" in
      every world the sender cannot tell from its own exactly when every pending entry it
      marks is vouched for, by that answer or by entries that count as delivered already. */
  lemma AckSafeIff(w: World, n: NodeId, req: Req, logical: string, now: Time)
    requires n in w.nodes && req in w.sent && Consistent(w, n, w.nodes[n].queue, req, w.sent[req])
    ensures var q, l := w.nodes[n].queue, w.sent[req];
      AckSafe(n, q, req, l, logical, now) <==> AckVouched(n, q, l, logical)
  {
    var q, l := w.nodes[n].queue, w.sent[req];
    if AckVouched(n, q, l, logical) {
      forall v | Consistent(v, n, q, req, l) ensures StoredAt(v, Acked(q.outbox, logical, now)) {
        VouchedIsSafe(v, n, req, logical, now);
      }
    } else {
      var id :| id in q.outbox && AckHits(q.outbox[id], logical) && !Vouched(n, q, l, q.outbox[id]);
      var v := UnvouchedIsUnsafe(w, n, req, logical, now, id);
    }
  }

  // ----- A run in which an acknowledgement breaks the guarantee -----

  lemma {:induction false} AllowedAppend(w: World, a: seq<Step>, b: seq<Step>)
    requires Allowed(w, a) && Allowed(After(w, a), b)
    ensures Allowed(w, a + b) && After(w, a + b) == After(After(w, a), b)
    decreases |a|
  {
    if a == [] {
      assert a + b == b;
    } else {
      assert (a + b)[0] == a[0] && (a + b)[1..] == a[1..] + b;
      AllowedAppend(Next(w, a[0]), a[1..], b);
    }
  }

  lemma AllowedSnoc(w: World, steps: seq<Step>, s: Step)
    requires Allowed(w, steps) && Enabled(After(w, steps), s)
    ensures Allowed(w, steps + [s]) && After(w, steps + [s]) == Next(After(w, steps), s)
  {
    var z := After(w, steps);
    assert [s][1..] == [];
    assert Allowed(Next(z, s), []);
    assert Allowed(z, [s]) && After(z, [s]) == Next(z, s);
    AllowedAppend(w, steps, [s]);
  }

  /** Handler `h` has run alone to where `Alone` says, and nothing else has happened. */
  ghost predicate Ran(w: World, z: World, h: Id, pc: Pc, db: Db) {
    && h in w.handlers && w.handlers[h].req in w.sent && w.sent[w.handlers[h].req].target in w.nodes
    && z.sent == w.sent && z.nodes == WithDb(w, w.sent[w.handlers[h].req].target, db)
    && z.handlers == w.handlers[h := w.handlers[h].(pc := pc)]
  }

  lemma RanOn(a: World, b: World, c: World, h: Id, pc: Pc, db: Db, pc': Pc, db': Db)
    requires Ran(a, b, h, pc, db) && Ran(b, c, h, pc', db')
    ensures Ran(a, c, h, pc', db')
  {
  }

  /** A handler that nobody disturbs does what a run left alone does. */
  lemma {:induction false} WorkAlone(w: World, h: Id, uuids: seq<Id>, now: Time) returns (steps: seq<Step>)
    requires h in w.handlers && w.handlers[h].req in w.sent && w.sent[w.handlers[h].req].target in w.nodes
    ensures Allowed(w, steps)
    ensures var db := w.nodes[w.sent[w.handlers[h].req].target].db;
      var end := Uninterrupted.Alone(JobOf(w, w.handlers[h]), w.handlers[h].pc, db, uuids, now);
      Ran(w, After(w, steps), h, end.0, end.1)
    decreases |uuids|
  {
    steps := [];
    var n := w.sent[w.handlers[h].req].target;
    if uuids == [] {
      assert w.nodes == WithDb(w, n, w.nodes[n].db);
      assert w.handlers == w.handlers[h := w.handlers[h].(pc := w.handlers[h].pc)];
    } else {
      var s := Step.Work(h, uuids[0], now);
      var next := Advance(JobOf(w, w.handlers[h]), w.handlers[h].pc, w.nodes[n].db, uuids[0], now);
      var w' := Next(w, s);
      assert Ran(w, w', h, next.0, next.1);
      var rest := WorkAlone(w', h, uuids[1..], now);
      steps := [s] + rest;
      assert steps[1..] == rest;
      var end := Uninterrupted.Alone(JobOf(w', w'.handlers[h]), next.0, next.1, uuids[1..], now);
      RanOn(w, w', After(w', rest), h, next.0, next.1, end.0, end.1);
    }
  }

  function Empty(): Db {
    Db(map[], map[], map[], map[], map[], map[])
  }

  /** A local user "bob" with one device. */
  function Bob(): Db {
    Empty().(users := map[1 := User("bob", None, None)], devices := map[1 := Device(1, "b")])
  }

  function ToBob(): Payload {
    Payload("m", Address("alice", "node-a"), 0, "a", "bob", [Item(1, "header", "ciphertext")])
  }

  ghost function ThreeNodes(a: Db, b: Db): World {
    World(map["node-a" := Node(a, Idle()), "node-b" := Node(b, Idle()), "node-c" := Node(b, Idle())],
          map[], map[], map[], {}, 0)
  }

  lemma ThreeNodesTables(a: Db, b: Db, n: NodeId)
    requires n in ThreeNodes(a, b).nodes
    ensures var node := ThreeNodes(a, b).nodes[n]; (node.db == a || node.db == b) && node.queue == Idle()
  {
  }

  lemma TwoKindsInitial(w: World, a: Db, b: Db)
    requires Valid(a) && Valid(b) && a.messages == map[] && b.messages == map[]
    requires forall n :: n in w.nodes ==> (w.nodes[n].db == a || w.nodes[n].db == b) && w.nodes[n].queue == Idle()
    requires w.sent == map[] && w.handlers == map[] && w.rows == map[] && w.local == {} && w.inserted == 0
    ensures Initial(w)
  {
  }

  lemma ThreeNodesInitial(a: Db, b: Db)
    requires Valid(a) && Valid(b) && a.messages == map[] && b.messages == map[]
    ensures Initial(ThreeNodes(a, b))
  {
    var w := ThreeNodes(a, b);
    forall n | n in w.nodes ensures (w.nodes[n].db == a || w.nodes[n].db == b) && w.nodes[n].queue == Idle() {
      ThreeNodesTables(a, b, n);
    }
    TwoKindsInitial(w, a, b);
  }

  lemma BobValid()
    ensures Valid(Empty()) && Valid(Bob())
  {
  }

  lemma BobDeliverable(job: Job)
    requires job.body.toUser == "bob" && SenderName(job.body.fromAddress) != "bob" && job.body.fromPubkey == "a"
    requires forall i :: 0 <= i < |job.body.items| ==> job.body.items[i].toDevice == 1
    ensures Uninterrupted.Deliverable(job, Bob())
  {
    assert Uninterrupted.Addressee(job, Bob(), 1);
  }

  /** Two pending entries for "m", one for each of two nodes; the first is sent and arrives. */
  ghost function Opening(): seq<Step> {
    [QueueStep("node-a", Outbox.Enqueue(0, 0, "node-b", ToBob())),
     QueueStep("node-a", Outbox.Enqueue(1, 1, "node-c", ToBob())),
     Send("node-a", 0), Arrive(0, Req("node-a", 0))]
  }

  /** After the first two steps. */
  ghost predicate Queued(w: World, b: Db) {
    && w.nodes.Keys == {"node-a", "node-b", "node-c"} && w.nodes["node-b"].db == b && w.nodes["node-c"].db == b
    && w.nodes["node-a"].queue == Outbox.Queue(
      0, 0, map[0 := Outbox.NewEntry("node-b", ToBob(), 0), 1 := Outbox.NewEntry("node-c", ToBob(), 0)],
      map[0 := Outbox.Immediate(0, "node-b", Outbox.Request(ToBob())),
          1 := Outbox.Immediate(1, "node-c", Outbox.Request(ToBob()))])
    && w.sent == map[] && w.handlers == map[]
  }

  /** After all four. */
  ghost predicate Opened(w: World, b: Db) {
    && w.nodes.Keys == {"node-a", "node-b", "node-c"} && w.nodes["node-b"].db == b && w.nodes["node-c"].db == b
    && w.nodes["node-a"].queue.outbox ==
       map[0 := Outbox.NewEntry("node-b", ToBob(), 0), 1 := Outbox.NewEntry("node-c", ToBob(), 0)]
    && w.sent == map[Req("node-a", 0) := Letter(0, "node-b", ToBob())]
    && w.handlers == map[0 := Handler(Req("node-a", 0), Resolving)]
  }

  lemma Queues(a: Db, b: Db)
    ensures Allowed(ThreeNodes(a, b), Opening()[..2]) && Queued(After(ThreeNodes(a, b), Opening()[..2]), b)
  {
    var w0, o := ThreeNodes(a, b), Opening();
    assert Honest("node-a", ToBob());
    AllowedSnoc(w0, [], o[0]);
    AllowedSnoc(w0, [o[0]], o[1]);
    assert o[..2] == [o[0]] + [o[1]];
  }

  lemma SendsAndArrives(w: World, b: Db)
    requires Queued(w, b)
    ensures Allowed(w, Opening()[2..]) && Opened(After(w, Opening()[2..]), b)
  {
    var o := Opening();
    AllowedSnoc(w, [], o[2]);
    AllowedSnoc(w, [o[2]], o[3]);
    assert o[2..] == [o[2]] + [o[3]];
  }

  lemma OpeningRuns(a: Db, b: Db)
    ensures Allowed(ThreeNodes(a, b), Opening()) && Opened(After(ThreeNodes(a, b), Opening()), b)
  {
    var w0, o := ThreeNodes(a, b), Opening();
    Queues(a, b);
    SendsAndArrives(After(w0, o[..2]), b);
    AllowedAppend(w0, o[..2], o[2..]);
    assert o == o[..2] + o[2..];
  }

  lemma AliceIsNotBob()
    ensures SenderName(ToBob().fromAddress) != "bob"
  {
    SenderNameIff("alice", "node-a");
  }

  lemma BobAnswers() returns (uuids: seq<Id>)
    ensures Uninterrupted.Alone(Job("node-a", ToBob()), Resolving, Bob(), uuids, 0).0.Replied?
  {
    BobValid();
    AliceIsNotBob();
    BobDeliverable(Job("node-a", ToBob()));
    uuids := Uninterrupted.AnswerExists(Job("node-a", ToBob()), Bob(), 0);
  }

  /** Entries 0 and 1 wait at "node-a" with the same logical identifier for two nodes; the
      first has answered and holds the message, the second does not. */
  ghost predicate HalfDelivered(w: World) {
    && "node-a" in w.nodes && Answered(w, Req("node-a", 0))
    && var outbox := w.nodes["node-a"].queue.outbox;
      && 0 in outbox && 1 in outbox && AckHits(outbox[0], "m") && AckHits(outbox[1], "m")
      && EntryStored(w, outbox[0]) && !EntryStored(w, outbox[1]) && outbox[0].target != outbox[1].target
  }

  lemma AnsweredHalf(a: World, w: World, pc: Pc, db: Db)
    requires Opened(a, Bob()) && Ran(a, w, 0, pc, db) && pc.Replied? && HandlersOk(w)
    ensures HalfDelivered(w)
  {
    assert HandlerOk(w, w.handlers[0]);
    assert w.nodes["node-c"].db == Bob();
    assert !Stored(Bob(), ItemKey(ToBob(), 0));
  }

  /** A reachable state in which every entry marked 'delivered' is stored, and one
      acknowledgement by the node that has answered marks one that is not. */
  lemma AckCanBreak() returns (w0: World, steps: seq<Step>)
    ensures Allowed(w0, steps) && Reachable(After(w0, steps), w0, steps)
    ensures var w := After(w0, steps);
      && HalfDelivered(w) && StoredAt(w, w.nodes["node-a"].queue.outbox)
      && forall now :: !StoredAt(w, Acked(w.nodes["node-a"].queue.outbox, "m", now))
  {
    BobValid();
    w0 := ThreeNodes(Empty(), Bob());
    ThreeNodesInitial(Empty(), Bob());
    OpeningRuns(Empty(), Bob());
    var a := After(w0, Opening());
    var uuids := BobAnswers();
    var work := WorkAlone(a, 0, uuids, 0);
    AllowedAppend(w0, Opening(), work);
    steps := Opening() + work;
    var w := After(w0, steps);
    ReachableOk(w, w0, steps);
    var end := Uninterrupted.Alone(Job("node-a", ToBob()), Resolving, Bob(), uuids, 0);
    AnsweredHalf(a, w, end.0, end.1);
    AckMarks(w, 1, "m");
  }

  lemma AckMarks(w: World, id: Id, logical: string)
    requires "node-a" in w.nodes && id in w.nodes["node-a"].queue.outbox
    requires var e := w.nodes["node-a"].queue.outbox[id]; AckHits(e, logical) && !EntryStored(w, e)
    ensures forall now :: !StoredAt(w, Acked(w.nodes["node-a"].queue.outbox, logical, now))
  {
    var outbox := w.nodes["node-a"].queue.outbox;
    forall now ensures !StoredAt(w, Acked(outbox, logical, now)) {
      assert Acked(outbox, logical, now)[id] == Outbox.MarkedDelivered(outbox[id], now);
    }
  }
}
