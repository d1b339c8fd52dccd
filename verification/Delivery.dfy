/** Any number of nodes that send to each other.

    A step is one SQL statement, one queue event or one network event, at one node.
    Requests may be lost, delayed, duplicated and reordered; responses may be lost;
    handlers may die between any two statements; several attempts for one entry may
    be under way; and unrelated statements may run on every node at any time. */
module Delivery {
  import opened Schema
  import opened ReceivePipeline
  import opened Codec
  import Outbox

  datatype Node = Node(db: Db, queue: Outbox.Queue)

  /** A request is identified by the node and the task that made it. */
  datatype Req = Req(from: NodeId, task: Id)
  datatype Letter = Letter(entry: Id, target: NodeId, body: Payload)
  datatype Handler = Handler(req: Req, pc: Pc)

  datatype RowId = RowId(node: NodeId, row: Id)
  datatype Source = Source(req: Req, item: nat)

  /** `rows`, `local` and `inserted` only record history: which rows appeared in a message
      table by a handler's statement and from what, which rows existed before or were
      inserted by local clients, and how many federated inserts answered `Ok(true)`. */
  datatype World = World(
    nodes: map<NodeId, Node>, sent: map<Req, Letter>, handlers: map<Id, Handler>,
    rows: map<RowId, Source>, local: set<RowId>, inserted: nat)

  datatype Step =
    | QueueStep(node: NodeId, event: Outbox.Event)
    | Send(node: NodeId, task: Id)
    | Arrive(handler: Id, req: Req)
    | Work(handler: Id, uuid: Id, now: Time)
    | Abort(handler: Id)
    | Local(node: NodeId, stmt: Stmt)
    | Acknowledge(req: Req, logical: string)

  function JobOf(w: World, h: Handler): Job
    requires h.req in w.sent
  {
    Job(h.req.from, w.sent[h.req].body)
  }

  /** The sender's address ends in the sending node's own name. */
  ghost predicate Honest(n: NodeId, body: Payload) {
    exists u :: body.fromAddress == Address(u, n)
  }

  ghost predicate Answered(w: World, req: Req) {
    exists h :: h in w.handlers && w.handlers[h].req == req && w.handlers[h].pc.Replied?
  }

  // ----- Acknowledgements -----

  /** What `POST /s2s/ack` does to the queue. */
  ghost function Acked(outbox: map<Id, Outbox.Entry>, logical: string, now: Time): map<Id, Outbox.Entry> {
    map id | id in outbox ::
      if AckHits(outbox[id], logical) then Outbox.MarkedDelivered(outbox[id], now) else outbox[id]
  }

  ghost predicate AckHits(e: Outbox.Entry, logical: string) {
    e.status == Outbox.Pending && e.logical == logical
  }

  ghost predicate HasKey(body: Payload, key: Key) {
    exists i :: 0 <= i < |body.items| && ItemKey(body, i) == key
  }

  /** The queue counts this entry as delivered. */
  ghost predicate DeliveredTo(q: Outbox.Queue, id: Id, target: NodeId) {
    && id in q.outbox && q.outbox[id].status == Outbox.Delivered && q.outbox[id].body.Request?
    && q.outbox[id].target == target
  }

  /** The answered letter, or an entry that counts as delivered, went to `target` with that key. */
  ghost predicate Vouches(q: Outbox.Queue, l: Letter, target: NodeId, key: Key) {
    || (l.target == target && HasKey(l.body, key))
    || exists d :: DeliveredTo(q, d, target) && HasKey(q.outbox[d].body.payload, key)
  }

  /** `target` is the sender itself, or has answered before. */
  ghost predicate Heard(n: NodeId, q: Outbox.Queue, l: Letter, target: NodeId) {
    target == n || target == l.target || exists d :: DeliveredTo(q, d, target)
  }

  ghost predicate Vouched(n: NodeId, q: Outbox.Queue, l: Letter, e: Outbox.Entry) {
    && e.body.Request? && Heard(n, q, l, e.target)
    && forall i :: 0 <= i < |e.body.payload.items| ==> Vouches(q, l, e.target, ItemKey(e.body.payload, i))
  }

  /** What an acknowledgement marks is vouched for. */
  ghost predicate AckVouched(n: NodeId, q: Outbox.Queue, l: Letter, logical: string) {
    forall id :: id in q.outbox && AckHits(q.outbox[id], logical) ==> Vouched(n, q, l, q.outbox[id])
  }

  // ----- Steps -----

  ghost predicate QueueEnabled(w: World, n: NodeId, e: Outbox.Event) {
    && n in w.nodes && Outbox.Enabled(w.nodes[n].queue, e)
    && match e
       case Enqueue(_, t, _, body) => Honest(n, body) && Req(n, t) !in w.sent
       case Poll(spawn) => forall t :: t in spawn ==> Req(n, t) !in w.sent
       case Succeed(t) => Answered(w, Req(n, t))
       case _ => true
  }

  ghost predicate Enabled(w: World, s: Step) {
    match s
    case QueueStep(n, e) => QueueEnabled(w, n, e)
    case Send(n, t) =>
      && n in w.nodes && t in w.nodes[n].queue.tasks && w.nodes[n].queue.tasks[t].body.Request?
      && Req(n, t) !in w.sent
    case Arrive(h, req) => h !in w.handlers && req in w.sent && w.sent[req].target in w.nodes
    case Work(h, _, _) => h in w.handlers && w.handlers[h].req in w.sent && w.sent[w.handlers[h].req].target in w.nodes
    case Abort(h) => h in w.handlers && !w.handlers[h].pc.Replied?
    case Local(n, stmt) => n in w.nodes && !stmt.InsertFederatedMessage?
    case Acknowledge(req, logical) =>
      && req.from in w.nodes && req in w.sent && Answered(w, req)
      && AckVouched(req.from, w.nodes[req.from].queue, w.sent[req], logical)
  }

  ghost function WithDb(w: World, n: NodeId, db: Db): map<NodeId, Node>
    requires n in w.nodes
  {
    w.nodes[n := w.nodes[n].(db := db)]
  }

  ghost function Next(w: World, s: Step): World
    requires Enabled(w, s)
  {
    match s
    case QueueStep(n, e) =>
      w.(nodes := w.nodes[n := w.nodes[n].(queue := Outbox.Next(w.nodes[n].queue, e))])
    case Send(n, t) =>
      var task := w.nodes[n].queue.tasks[t];
      w.(sent := w.sent[Req(n, t) := Letter(task.entry, task.target, task.body.payload)])
    case Arrive(h, req) => w.(handlers := w.handlers[h := Handler(req, Resolving)])
    case Work(h, uuid, now) =>
      var handler := w.handlers[h];
      var n := w.sent[handler.req].target;
      var db := w.nodes[n].db;
      var (pc, db') := Advance(JobOf(w, handler), handler.pc, db, uuid, now);
      var w' := w.(nodes := WithDb(w, n, db'), handlers := w.handlers[h := handler.(pc := pc)]);
      w'.(rows := if handler.pc.Storing? && Inserts(db, db', uuid)
                  then w.rows[RowId(n, uuid) := Source(handler.req, handler.pc.next)] else w.rows,
          inserted := w.inserted + if ReportsNew(JobOf(w, handler), handler.pc, db, uuid, now) then 1 else 0)
    case Abort(h) => w.(handlers := w.handlers[h := w.handlers[h].(pc := Stopped)])
    case Local(n, stmt) =>
      var db' := Exec(w.nodes[n].db, stmt);
      w.(nodes := WithDb(w, n, db'),
         local := if stmt.InsertMessage? && Inserts(w.nodes[n].db, db', stmt.id)
                  then w.local + {RowId(n, stmt.id)} else w.local)
    case Acknowledge(req, logical) =>
      var q := w.nodes[req.from].queue;
      w.(nodes := w.nodes[req.from := w.nodes[req.from].(queue := q.(outbox := Acked(q.outbox, logical, q.now)))])
  }

  ghost predicate Allowed(w: World, steps: seq<Step>)
    decreases |steps|
  {
    steps == [] || (Enabled(w, steps[0]) && Allowed(Next(w, steps[0]), steps[1..]))
  }

  ghost function After(w: World, steps: seq<Step>): World
    requires Allowed(w, steps)
    decreases |steps|
  {
    if steps == [] then w else After(Next(w, steps[0]), steps[1..])
  }

  /** Nodes with any valid tables, empty queues and nothing in flight. */
  ghost predicate Initial(w: World) {
    && (forall n :: n in w.nodes ==>
      Valid(w.nodes[n].db) && w.nodes[n].queue.outbox == map[] && w.nodes[n].queue.tasks == map[])
    && w.sent == map[] && w.handlers == map[] && w.rows == map[] && w.inserted == 0
    && (forall n, m :: n in w.nodes && m in w.nodes[n].db.messages ==> RowId(n, m) in w.local)
    && LocalOk(w)
  }

  // ----- The invariant -----

  ghost predicate TablesOk(w: World) {
    forall n :: n in w.nodes ==> Valid(w.nodes[n].db)
  }

  ghost predicate QueueOk(w: World, n: NodeId, q: Outbox.Queue) {
    && Outbox.OverlapSafe(q)
    && (forall id :: id in q.outbox && q.outbox[id].body.Request? ==> Honest(n, q.outbox[id].body.payload))
    && (forall t :: t in q.tasks && Req(n, t) in w.sent ==> w.sent[Req(n, t)].entry == q.tasks[t].entry)
  }

  ghost predicate QueuesOk(w: World) {
    forall n :: n in w.nodes ==> QueueOk(w, n, w.nodes[n].queue)
  }

  ghost predicate LetterOk(w: World, req: Req, l: Letter) {
    && req.from in w.nodes && l.entry in w.nodes[req.from].queue.outbox
    && var e := w.nodes[req.from].queue.outbox[l.entry];
      e.target == l.target && e.body == Outbox.Request(l.body) && Honest(req.from, l.body)
  }

  ghost predicate LettersOk(w: World) {
    forall req :: req in w.sent ==> LetterOk(w, req, w.sent[req])
  }

  ghost predicate HandlerOk(w: World, h: Handler) {
    && h.req in w.sent && w.sent[h.req].target in w.nodes
    && PcOk(JobOf(w, h), h.pc, w.nodes[w.sent[h.req].target].db)
  }

  ghost predicate HandlersOk(w: World) {
    forall h :: h in w.handlers ==> HandlerOk(w, w.handlers[h])
  }

  /** The row is item `item` of the request, the first one for its device, and it
      stands where the request said. */
  ghost predicate Carries(job: Job, item: nat, db: Db, row: Message) {
    && CarriesItem(job.body, item, row) && row.fromDevice == job.body.fromDevice
    && Placed(job, db, row.toUser, row.fromUser, row.chat)
  }

  ghost predicate RowOk(w: World, r: RowId, s: Source) {
    && r.node in w.nodes && r.row in w.nodes[r.node].db.messages && r !in w.local
    && s.req in w.sent && w.sent[s.req].target == r.node
    && Carries(Job(s.req.from, w.sent[s.req].body), s.item, w.nodes[r.node].db, w.nodes[r.node].db.messages[r.row])
  }

  ghost predicate RowsOk(w: World) {
    forall r :: r in w.rows ==> RowOk(w, r, w.rows[r])
  }

  ghost predicate EntryStored(w: World, e: Outbox.Entry) {
    && e.body.Request? && e.target in w.nodes
    && PrefixStored(w.nodes[e.target].db, e.body.payload, |e.body.payload.items|)
  }

  ghost predicate StoredAt(w: World, outbox: map<Id, Outbox.Entry>) {
    forall id :: id in outbox && outbox[id].status == Outbox.Delivered ==> EntryStored(w, outbox[id])
  }

  ghost predicate DeliveredOk(w: World) {
    forall n :: n in w.nodes ==> StoredAt(w, w.nodes[n].queue.outbox)
  }

  ghost predicate Accounted(w: World) {
    && |w.rows| == w.inserted
    && forall n, m :: n in w.nodes && m in w.nodes[n].db.messages ==> RowId(n, m) in w.local || RowId(n, m) in w.rows
  }

  ghost predicate LocalOk(w: World) {
    forall r :: r in w.local ==> r.node in w.nodes && r.row in w.nodes[r.node].db.messages
  }

  ghost predicate WorldOk(w: World) {
    && TablesOk(w) && QueuesOk(w) && LettersOk(w) && HandlersOk(w)
    && RowsOk(w) && LocalOk(w) && DeliveredOk(w) && Accounted(w)
  }

  // ----- What no step undoes -----

  ghost predicate Grows(a: World, b: World) {
    && a.nodes.Keys == b.nodes.Keys
    && (forall n :: n in a.nodes ==> Extends(a.nodes[n].db, b.nodes[n].db))
    && (forall n :: n in a.nodes ==> Outbox.Progresses(a.nodes[n].queue.outbox, b.nodes[n].queue.outbox))
    && (forall req :: req in a.sent ==> req in b.sent && b.sent[req] == a.sent[req])
    && (forall r :: r in b.local && r !in a.local ==>
      r.node in a.nodes && r.row !in a.nodes[r.node].db.messages)
  }

  lemma AdvanceExtends(job: Job, pc: Pc, db: Db, uuid: Id, now: Time)
    ensures Extends(db, Advance(job, pc, db, uuid, now).1)
  {
    AdvanceIsWrite(job, pc, db, uuid, now);
    match Write(job, pc, uuid, now) {
      case None => ExtendsReflexive(db);
      case Some(s) => ExecExtends(db, s);
    }
  }

  /** The tables of node `n` after a step. */
  lemma TablesExtend(w: World, s: Step, n: NodeId)
    requires Enabled(w, s) && n in w.nodes
    ensures n in Next(w, s).nodes && Extends(w.nodes[n].db, Next(w, s).nodes[n].db)
  {
    ExtendsReflexive(w.nodes[n].db);
    if s.Work? && w.sent[w.handlers[s.handler].req].target == n {
      var h := w.handlers[s.handler];
      AdvanceExtends(JobOf(w, h), h.pc, w.nodes[n].db, s.uuid, s.now);
    } else if s.Local? && s.node == n {
      ExecExtends(w.nodes[n].db, s.stmt);
    }
  }

  lemma AckProgresses(q: Outbox.Queue, logical: string)
    ensures Outbox.Progresses(q.outbox, Acked(q.outbox, logical, q.now))
  {
  }

  lemma OutboxProgresses(w: World, s: Step, n: NodeId)
    requires Enabled(w, s) && n in w.nodes
    ensures n in Next(w, s).nodes && Outbox.Progresses(w.nodes[n].queue.outbox, Next(w, s).nodes[n].queue.outbox)
  {
    if s.QueueStep? && s.node == n {
      Outbox.NextProgresses(w.nodes[n].queue, s.event);
    } else if s.Acknowledge? && s.req.from == n {
      AckProgresses(w.nodes[n].queue, s.logical);
    }
  }

  lemma SentGrows(w: World, s: Step)
    requires Enabled(w, s)
    ensures Next(w, s).nodes.Keys == w.nodes.Keys
    ensures forall req :: req in w.sent ==> req in Next(w, s).sent && Next(w, s).sent[req] == w.sent[req]
  {
  }

  lemma LocalGrows(w: World, s: Step)
    requires Enabled(w, s)
    ensures forall r :: r in Next(w, s).local && r !in w.local ==>
      r.node in w.nodes && r.row !in w.nodes[r.node].db.messages
  {
  }

  lemma StepGrows(w: World, s: Step)
    requires Enabled(w, s)
    ensures Grows(w, Next(w, s))
  {
    SentGrows(w, s);
    LocalGrows(w, s);
    forall n | n in w.nodes ensures Extends(w.nodes[n].db, Next(w, s).nodes[n].db) { TablesExtend(w, s, n); }
    forall n | n in w.nodes
      ensures Outbox.Progresses(w.nodes[n].queue.outbox, Next(w, s).nodes[n].queue.outbox)
    {
      OutboxProgresses(w, s, n);
    }
  }

  // ----- Each part of the invariant is kept -----

  lemma NodeTablesKept(w: World, s: Step, n: NodeId)
    requires Enabled(w, s) && n in w.nodes && Valid(w.nodes[n].db)
    ensures n in Next(w, s).nodes && Valid(Next(w, s).nodes[n].db)
  {
    if s.Work? && w.sent[w.handlers[s.handler].req].target == n {
      var h := w.handlers[s.handler];
      AdvanceKeepsTables(JobOf(w, h), h.pc, w.nodes[n].db, s.uuid, s.now);
    } else if s.Local? && s.node == n {
      ExecKeepsValid(w.nodes[n].db, s.stmt);
    }
  }

  lemma TablesKept(w: World, s: Step)
    requires Enabled(w, s) && TablesOk(w)
    ensures TablesOk(Next(w, s))
  {
    forall n | n in Next(w, s).nodes ensures Valid(Next(w, s).nodes[n].db) {
      NodeTablesKept(w, s, n);
    }
  }

  lemma QueueStepOk(w: World, n: NodeId, e: Outbox.Event)
    requires Enabled(w, QueueStep(n, e)) && QueueOk(w, n, w.nodes[n].queue)
    ensures var w' := Next(w, QueueStep(n, e)); QueueOk(w', n, w'.nodes[n].queue)
  {
    Outbox.NextOverlapSafe(w.nodes[n].queue, e);
    Outbox.NextProgresses(w.nodes[n].queue, e);
  }

  lemma AckQueueOk(w: World, n: NodeId, q: Outbox.Queue, logical: string)
    requires QueueOk(w, n, q)
    ensures QueueOk(w, n, q.(outbox := Acked(q.outbox, logical, q.now)))
  {
    var acked := Acked(q.outbox, logical, q.now);
    forall t | t in q.tasks ensures Outbox.TaskOk(acked, q.tasks[t]) {
      assert Outbox.TaskOk(q.outbox, q.tasks[t]);
    }
  }

  lemma QueuesKept(w: World, s: Step)
    requires Enabled(w, s) && QueuesOk(w)
    ensures QueuesOk(Next(w, s))
  {
    var w' := Next(w, s);
    forall n | n in w'.nodes ensures QueueOk(w', n, w'.nodes[n].queue) {
      assert QueueOk(w, n, w.nodes[n].queue);
      if s.QueueStep? && s.node == n {
        QueueStepOk(w, n, s.event);
      } else if s.Acknowledge? && s.req.from == n {
        AckQueueOk(w, n, w.nodes[n].queue, s.logical);
      }
    }
  }

  lemma NewLetter(w: World, n: NodeId, t: Id)
    requires Enabled(w, Send(n, t)) && QueueOk(w, n, w.nodes[n].queue)
    ensures var task := w.nodes[n].queue.tasks[t];
      LetterOk(w, Req(n, t), Letter(task.entry, task.target, task.body.payload))
  {
  }

  lemma LettersPersist(a: World, b: World)
    requires Grows(a, b) && LettersOk(a)
    requires forall req :: req in b.sent && req !in a.sent ==> LetterOk(a, req, b.sent[req])
    ensures LettersOk(b)
  {
  }

  lemma LettersKept(w: World, s: Step)
    requires Enabled(w, s) && QueuesOk(w) && LettersOk(w)
    requires Grows(w, Next(w, s))
    ensures LettersOk(Next(w, s))
  {
    if s.Send? {
      NewLetter(w, s.node, s.task);
    }
    LettersPersist(w, Next(w, s));
  }

  lemma HandlerPersists(a: World, b: World, h: Handler)
    requires Grows(a, b) && HandlerOk(a, h)
    ensures HandlerOk(b, h)
  {
    var n := a.sent[h.req].target;
    PcStable(JobOf(a, h), h.pc, a.nodes[n].db, b.nodes[n].db);
  }

  lemma WorkingHandlerOk(w: World, h: Id, uuid: Id, now: Time)
    requires Enabled(w, Step.Work(h, uuid, now)) && HandlerOk(w, w.handlers[h])
    ensures var w' := Next(w, Step.Work(h, uuid, now)); HandlerOk(w', w'.handlers[h])
  {
    var handler := w.handlers[h];
    var db := w.nodes[w.sent[handler.req].target].db;
    AdvanceExtends(JobOf(w, handler), handler.pc, db, uuid, now);
    AdvanceKeepsLocals(JobOf(w, handler), handler.pc, db, uuid, now);
  }

  /** A handler that has just arrived or just died. */
  lemma NewHandlerOk(w: World, s: Step, h: Id)
    requires Enabled(w, s) && HandlersOk(w) && !(s.Work? && s.handler == h)
    requires h in Next(w, s).handlers && (h in w.handlers ==> Next(w, s).handlers[h] != w.handlers[h])
    ensures HandlerOk(Next(w, s), Next(w, s).handlers[h])
  {
  }

  lemma HandlersKept(w: World, s: Step)
    requires Enabled(w, s) && HandlersOk(w)
    requires Grows(w, Next(w, s))
    ensures HandlersOk(Next(w, s))
  {
    var w' := Next(w, s);
    forall h | h in w'.handlers ensures HandlerOk(w', w'.handlers[h]) {
      if s.Work? && s.handler == h {
        WorkingHandlerOk(w, h, s.uuid, s.now);
      } else if h in w.handlers && w'.handlers[h] == w.handlers[h] {
        HandlerPersists(w, w', w.handlers[h]);
      } else {
        NewHandlerOk(w, s, h);
      }
    }
  }

  lemma RowPersists(a: World, b: World, r: RowId, s: Source)
    requires Grows(a, b) && RowOk(a, r, s)
    ensures RowOk(b, r, s)
  {
  }

  /** A row that a handler inserts is the first item for its device. */
  lemma NewRowCarries(job: Job, pc: Pc, db: Db, uuid: Id, now: Time)
    requires PcOk(job, pc, db) && pc.Storing? && Inserts(db, Advance(job, pc, db, uuid, now).1, uuid)
    ensures var db' := Advance(job, pc, db, uuid, now).1; Carries(job, pc.next, db', db'.messages[uuid])
  {
    var row := ItemRow(job.body, pc.next, pc.recipient, pc.sender, pc.chat, now);
    forall j | 0 <= j < pc.next ensures job.body.items[j].toDevice != job.body.items[pc.next].toDevice {
      assert Stored(db, ItemKey(job.body, j));
    }
    assert CarriesItem(job.body, pc.next, row);
  }

  lemma NewRowOk(w: World, h: Id, uuid: Id, now: Time)
    requires Enabled(w, Step.Work(h, uuid, now)) && HandlerOk(w, w.handlers[h]) && LocalOk(w)
    requires w.handlers[h].pc.Storing?
    requires var job, n := JobOf(w, w.handlers[h]), w.sent[w.handlers[h].req].target;
      Inserts(w.nodes[n].db, Advance(job, w.handlers[h].pc, w.nodes[n].db, uuid, now).1, uuid)
    ensures var r := RowId(w.sent[w.handlers[h].req].target, uuid);
      RowOk(Next(w, Step.Work(h, uuid, now)), r, Source(w.handlers[h].req, w.handlers[h].pc.next))
  {
    var job, n := JobOf(w, w.handlers[h]), w.sent[w.handlers[h].req].target;
    NewRowCarries(job, w.handlers[h].pc, w.nodes[n].db, uuid, now);
  }

  ghost predicate StepInserts(w: World, s: Step)
    requires Enabled(w, s)
  {
    s.Work? && w.handlers[s.handler].pc.Storing? &&
    var h := w.handlers[s.handler];
    var db := w.nodes[w.sent[h.req].target].db;
    Inserts(db, Advance(JobOf(w, h), h.pc, db, s.uuid, s.now).1, s.uuid)
  }

  /** The federated row that a step adds, if it adds one. */
  lemma StepRows(w: World, s: Step)
    requires Enabled(w, s)
    ensures StepInserts(w, s) ==>
      var h := w.handlers[s.handler];
      && Next(w, s).rows == w.rows[RowId(w.sent[h.req].target, s.uuid) := Source(h.req, h.pc.next)]
      && Next(w, s).inserted == w.inserted + 1
    ensures !StepInserts(w, s) ==> Next(w, s).rows == w.rows && Next(w, s).inserted == w.inserted
  {
    if s.Work? {
      var h := w.handlers[s.handler];
      ReportsNewIff(JobOf(w, h), h.pc, w.nodes[w.sent[h.req].target].db, s.uuid, s.now);
    }
  }

  lemma NewRow(w: World, s: Step) returns (r: RowId, source: Source)
    requires Enabled(w, s) && HandlersOk(w) && LocalOk(w) && Next(w, s).rows != w.rows
    ensures Next(w, s).rows == w.rows[r := source] && RowOk(Next(w, s), r, source)
  {
    StepRows(w, s);
    var h := w.handlers[s.handler];
    r, source := RowId(w.sent[h.req].target, s.uuid), Source(h.req, h.pc.next);
    NewRowOk(w, s.handler, s.uuid, s.now);
  }

  lemma RowsPersist(a: World, b: World, r: RowId, source: Source)
    requires Grows(a, b) && RowsOk(a)
    requires b.rows != a.rows ==> b.rows == a.rows[r := source] && RowOk(b, r, source)
    ensures RowsOk(b)
  {
    forall x | x in a.rows ensures RowOk(b, x, a.rows[x]) {
      RowPersists(a, b, x, a.rows[x]);
    }
  }

  lemma RowsKept(w: World, s: Step)
    requires Enabled(w, s) && HandlersOk(w) && RowsOk(w) && LocalOk(w)
    requires Grows(w, Next(w, s))
    ensures RowsOk(Next(w, s))
  {
    var r, source := RowId("", 0), Source(Req("", 0), 0);
    if Next(w, s).rows != w.rows {
      r, source := NewRow(w, s);
    }
    RowsPersist(w, Next(w, s), r, source);
  }

  lemma StepLocal(w: World, s: Step, r: RowId)
    requires Enabled(w, s) && r in Next(w, s).local && r !in w.local
    ensures r.node in Next(w, s).nodes && r.row in Next(w, s).nodes[r.node].db.messages
  {
  }

  lemma LocalPersists(a: World, b: World, r: RowId)
    requires Grows(a, b) && LocalOk(a) && r in a.local
    ensures r.node in b.nodes && r.row in b.nodes[r.node].db.messages
  {
  }

  lemma LocalKept(w: World, s: Step)
    requires Enabled(w, s) && LocalOk(w) && Grows(w, Next(w, s))
    ensures LocalOk(Next(w, s))
  {
    var w' := Next(w, s);
    forall r | r in w'.local ensures r.node in w'.nodes && r.row in w'.nodes[r.node].db.messages {
      if r in w.local { LocalPersists(w, w', r); } else { StepLocal(w, s, r); }
    }
  }

  /** The answer to a task's request means that the task's entry is stored. */
  lemma AnswerMeansStored(w: World, n: NodeId, t: Id)
    requires LettersOk(w) && HandlersOk(w) && n in w.nodes && QueueOk(w, n, w.nodes[n].queue)
    requires t in w.nodes[n].queue.tasks && Answered(w, Req(n, t))
    ensures var q := w.nodes[n].queue; q.tasks[t].entry in q.outbox && EntryStored(w, q.outbox[q.tasks[t].entry])
  {
  }

  lemma StoredAtPersists(a: World, b: World, outbox: map<Id, Outbox.Entry>)
    requires Grows(a, b) && StoredAt(a, outbox)
    ensures StoredAt(b, outbox)
  {
  }

  lemma KeyStored(db: Db, body: Payload, key: Key)
    requires PrefixStored(db, body, |body.items|) && HasKey(body, key)
    ensures Stored(db, key)
  {
  }

  lemma LetterStored(w: World, req: Req)
    requires HandlersOk(w) && req in w.sent && Answered(w, req)
    ensures var l := w.sent[req];
      l.target in w.nodes && PrefixStored(w.nodes[l.target].db, l.body, |l.body.items|)
  {
    var h :| h in w.handlers && w.handlers[h].req == req && w.handlers[h].pc.Replied?;
    assert HandlerOk(w, w.handlers[h]);
  }

  lemma HeardIsThere(w: World, n: NodeId, req: Req, target: NodeId)
    requires HandlersOk(w) && req in w.sent && Answered(w, req)
    requires n in w.nodes && StoredAt(w, w.nodes[n].queue.outbox) && Heard(n, w.nodes[n].queue, w.sent[req], target)
    ensures target in w.nodes
  {
    LetterStored(w, req);
  }

  lemma VouchedKeyStored(w: World, n: NodeId, req: Req, target: NodeId, key: Key)
    requires HandlersOk(w) && req in w.sent && Answered(w, req)
    requires n in w.nodes && StoredAt(w, w.nodes[n].queue.outbox) && Vouches(w.nodes[n].queue, w.sent[req], target, key)
    ensures target in w.nodes && Stored(w.nodes[target].db, key)
  {
    var q, l := w.nodes[n].queue, w.sent[req];
    if l.target == target && HasKey(l.body, key) {
      LetterStored(w, req);
      KeyStored(w.nodes[target].db, l.body, key);
    } else {
      var d :| DeliveredTo(q, d, target) && HasKey(q.outbox[d].body.payload, key);
      assert EntryStored(w, q.outbox[d]);
      KeyStored(w.nodes[target].db, q.outbox[d].body.payload, key);
    }
  }

  lemma VouchedStored(w: World, n: NodeId, req: Req, e: Outbox.Entry)
    requires HandlersOk(w) && req in w.sent && Answered(w, req)
    requires n in w.nodes && StoredAt(w, w.nodes[n].queue.outbox) && Vouched(n, w.nodes[n].queue, w.sent[req], e)
    ensures EntryStored(w, e)
  {
    HeardIsThere(w, n, req, e.target);
    var body := e.body.payload;
    forall i {:trigger ItemKey(body, i)} | 0 <= i < |body.items|
      ensures Stored(w.nodes[e.target].db, ItemKey(body, i))
    {
      VouchedKeyStored(w, n, req, e.target, ItemKey(body, i));
    }
  }

  lemma VouchedIsSafe(v: World, n: NodeId, req: Req, logical: string, now: Time)
    requires HandlersOk(v) && req in v.sent && Answered(v, req)
    requires n in v.nodes && StoredAt(v, v.nodes[n].queue.outbox)
    requires AckVouched(n, v.nodes[n].queue, v.sent[req], logical)
    ensures StoredAt(v, Acked(v.nodes[n].queue.outbox, logical, now))
  {
    var outbox := v.nodes[n].queue.outbox;
    forall id | id in outbox && AckHits(outbox[id], logical) ensures EntryStored(v, outbox[id]) {
      VouchedStored(v, n, req, outbox[id]);
    }
  }

  /** The only queue event that marks an entry delivered is a task's success. */
  lemma DeliveredBySuccess(w: World, q: Outbox.Queue, e: Outbox.Event)
    requires Outbox.Enabled(q, e) && StoredAt(w, q.outbox)
    requires e.Succeed? ==> q.tasks[e.task].entry in q.outbox && EntryStored(w, q.outbox[q.tasks[e.task].entry])
    ensures StoredAt(w, Outbox.Next(q, e).outbox)
  {
  }

  lemma QueueStepStored(w: World, n: NodeId, e: Outbox.Event)
    requires Enabled(w, QueueStep(n, e)) && QueueOk(w, n, w.nodes[n].queue)
    requires LettersOk(w) && HandlersOk(w) && StoredAt(w, w.nodes[n].queue.outbox)
    ensures StoredAt(w, Outbox.Next(w.nodes[n].queue, e).outbox)
  {
    if e.Succeed? {
      AnswerMeansStored(w, n, e.task);
    }
    DeliveredBySuccess(w, w.nodes[n].queue, e);
  }

  lemma QueueAfter(w: World, s: Step, n: NodeId)
    requires Enabled(w, s) && n in w.nodes
    ensures n in Next(w, s).nodes
    ensures s.QueueStep? && s.node == n ==> Next(w, s).nodes[n].queue == Outbox.Next(w.nodes[n].queue, s.event)
    ensures s.Acknowledge? && s.req.from == n ==>
      Next(w, s).nodes[n].queue.outbox == Acked(w.nodes[n].queue.outbox, s.logical, w.nodes[n].queue.now)
    ensures !(s.QueueStep? && s.node == n) && !(s.Acknowledge? && s.req.from == n) ==>
      Next(w, s).nodes[n].queue == w.nodes[n].queue
  {
  }

  lemma NodeDeliveredKept(w: World, s: Step, n: NodeId)
    requires Enabled(w, s) && LettersOk(w) && HandlersOk(w) && Grows(w, Next(w, s))
    requires n in w.nodes && QueueOk(w, n, w.nodes[n].queue) && StoredAt(w, w.nodes[n].queue.outbox)
    ensures n in Next(w, s).nodes && StoredAt(Next(w, s), Next(w, s).nodes[n].queue.outbox)
  {
    QueueAfter(w, s, n);
    if s.QueueStep? && s.node == n {
      QueueStepStored(w, n, s.event);
    } else if s.Acknowledge? && s.req.from == n {
      VouchedIsSafe(w, n, s.req, s.logical, w.nodes[n].queue.now);
    }
    StoredAtPersists(w, Next(w, s), Next(w, s).nodes[n].queue.outbox);
  }

  lemma DeliveredKept(w: World, s: Step)
    requires Enabled(w, s) && QueuesOk(w) && LettersOk(w) && HandlersOk(w) && DeliveredOk(w)
    requires Grows(w, Next(w, s))
    ensures DeliveredOk(Next(w, s))
  {
    forall n | n in Next(w, s).nodes ensures StoredAt(Next(w, s), Next(w, s).nodes[n].queue.outbox) {
      NodeDeliveredKept(w, s, n);
    }
  }

  lemma WorkRows(job: Job, pc: Pc, db: Db, uuid: Id, now: Time)
    ensures var db' := Advance(job, pc, db, uuid, now).1;
      forall m :: Inserts(db, db', m) ==> pc.Storing? && m == uuid
  {
  }

  lemma LocalAdds(w: World, n: NodeId, stmt: Stmt, m: Id)
    requires Enabled(w, Local(n, stmt)) && Inserts(w.nodes[n].db, Exec(w.nodes[n].db, stmt), m)
    ensures RowId(n, m) in Next(w, Local(n, stmt)).local
  {
  }

  lemma WorkAdds(w: World, h: Id, uuid: Id, now: Time, m: Id)
    requires Enabled(w, Step.Work(h, uuid, now))
    requires var job, db := JobOf(w, w.handlers[h]), w.nodes[w.sent[w.handlers[h].req].target].db;
      Inserts(db, Advance(job, w.handlers[h].pc, db, uuid, now).1, m)
    ensures RowId(w.sent[w.handlers[h].req].target, m) in Next(w, Step.Work(h, uuid, now)).rows
  {
    var job, db := JobOf(w, w.handlers[h]), w.nodes[w.sent[w.handlers[h].req].target].db;
    WorkRows(job, w.handlers[h].pc, db, uuid, now);
  }

  /** The message rows of node `n` that a step adds. */
  lemma RowsAdded(w: World, s: Step, n: NodeId, m: Id)
    requires Enabled(w, s) && n in w.nodes && m !in w.nodes[n].db.messages
    requires m in Next(w, s).nodes[n].db.messages
    ensures RowId(n, m) in Next(w, s).local || RowId(n, m) in Next(w, s).rows
  {
    match s
    case Local(_, stmt) => LocalAdds(w, n, stmt, m);
    case Work(h, uuid, now) => WorkAdds(w, h, uuid, now, m);
    case _ =>
  }

  lemma HistoryGrows(w: World, s: Step)
    requires Enabled(w, s)
    ensures forall r :: r in w.local ==> r in Next(w, s).local
    ensures forall r :: r in w.rows ==> r in Next(w, s).rows
    ensures Next(w, s).nodes.Keys == w.nodes.Keys
  {
  }

  lemma InsertIsNew(w: World, s: Step)
    requires Enabled(w, s) && StepInserts(w, s) && RowsOk(w)
    ensures RowId(w.sent[w.handlers[s.handler].req].target, s.uuid) !in w.rows
  {
  }

  lemma OneMoreRow(rows: map<RowId, Source>, r: RowId, source: Source)
    requires r !in rows
    ensures |rows[r := source]| == |rows| + 1
  {
  }

  lemma CountKept(w: World, s: Step)
    requires Enabled(w, s) && |w.rows| == w.inserted && RowsOk(w)
    ensures |Next(w, s).rows| == Next(w, s).inserted
  {
    StepRows(w, s);
    if StepInserts(w, s) {
      InsertIsNew(w, s);
      var h := w.handlers[s.handler];
      OneMoreRow(w.rows, RowId(w.sent[h.req].target, s.uuid), Source(h.req, h.pc.next));
    }
  }

  lemma AccountedKept(w: World, s: Step)
    requires Enabled(w, s) && Accounted(w) && RowsOk(w)
    ensures Accounted(Next(w, s))
  {
    var w' := Next(w, s);
    HistoryGrows(w, s);
    CountKept(w, s);
    forall n, m | n in w'.nodes && m in w'.nodes[n].db.messages
      ensures RowId(n, m) in w'.local || RowId(n, m) in w'.rows
    {
      if m !in w.nodes[n].db.messages {
        RowsAdded(w, s, n, m);
      }
    }
  }

  lemma NextKeepsWorld(w: World, s: Step)
    requires WorldOk(w) && Enabled(w, s)
    ensures WorldOk(Next(w, s)) && Grows(w, Next(w, s))
  {
    StepGrows(w, s);
    TablesKept(w, s);
    QueuesKept(w, s);
    LettersKept(w, s);
    HandlersKept(w, s);
    RowsKept(w, s);
    LocalKept(w, s);
    DeliveredKept(w, s);
    AccountedKept(w, s);
  }

  lemma {:induction false} RunKeepsWorld(w: World, steps: seq<Step>)
    requires WorldOk(w) && Allowed(w, steps)
    ensures WorldOk(After(w, steps))
    decreases |steps|
  {
    if steps != [] {
      NextKeepsWorld(w, steps[0]);
      RunKeepsWorld(Next(w, steps[0]), steps[1..]);
    }
  }

  lemma InitialQueues(w: World)
    requires Initial(w)
    ensures QueuesOk(w) && DeliveredOk(w)
  {
  }

  lemma InitialOk(w: World)
    requires Initial(w)
    ensures WorldOk(w)
  {
    InitialQueues(w);
    assert TablesOk(w) && Accounted(w);
  }

  // ----- Main results: every reachable state -----

  ghost predicate Reachable(w: World, w0: World, steps: seq<Step>) {
    Initial(w0) && Allowed(w0, steps) && w == After(w0, steps)
  }

  lemma ReachableOk(w: World, w0: World, steps: seq<Step>)
    requires Reachable(w, w0, steps)
    ensures WorldOk(w)
  {
    InitialOk(w0);
    RunKeepsWorld(w0, steps);
  }

  /** An entry marked 'delivered' has a row on its target for every recipient device. */
  lemma DeliveredMeansStored(w: World, w0: World, steps: seq<Step>, n: NodeId, id: Id, i: nat)
    requires Reachable(w, w0, steps)
    requires n in w.nodes && id in w.nodes[n].queue.outbox
    requires var e := w.nodes[n].queue.outbox[id];
      e.status == Outbox.Delivered && (e.body.Request? ==> i < |e.body.payload.items|)
    ensures var e := w.nodes[n].queue.outbox[id];
      e.body.Request? && e.target in w.nodes && Stored(w.nodes[e.target].db, ItemKey(e.body.payload, i))
  {
    ReachableOk(w, w0, steps);
    assert StoredAt(w, w.nodes[n].queue.outbox);
    assert EntryStored(w, w.nodes[n].queue.outbox[id]);
  }

  /** Entry `id` of node `from` is addressed to `n` and its item `i` reads like `row`. */
  ghost predicate Origin(w: World, n: NodeId, row: Message, from: NodeId, id: Id, i: nat) {
    && from in w.nodes && id in w.nodes[from].queue.outbox
    && var e := w.nodes[from].queue.outbox[id];
      e.target == n && e.body.Request? && CarriesItem(e.body.payload, i, row)
  }

  /** No invention: a message row that no local client inserted reads like an item of
      an outbox entry addressed to this node. */
  lemma FederatedRowsAreSent(w: World, w0: World, steps: seq<Step>, n: NodeId, m: Id)
    requires Reachable(w, w0, steps)
    requires n in w.nodes && m in w.nodes[n].db.messages && RowId(n, m) !in w.local
    ensures exists from, id, i :: Origin(w, n, w.nodes[n].db.messages[m], from, id, i)
  {
    ReachableOk(w, w0, steps);
    var r := RowId(n, m);
    assert RowOk(w, r, w.rows[r]);
    var s := w.rows[r];
    assert LetterOk(w, s.req, w.sent[s.req]);
    assert Origin(w, n, w.nodes[n].db.messages[m], s.req.from, w.sent[s.req].entry, s.item);
  }

  ghost predicate KeysUnique(db: Db) {
    forall l, m :: l in db.messages && m in db.messages && db.messages[l].key == db.messages[m].key ==> l == m
  }

  /** Exactly once: a key has one row whoever wrote it, and the inserts that answered
      `Ok(true)` are as many as the rows that handlers made appear. */
  lemma StoredOnce(w: World, w0: World, steps: seq<Step>)
    requires Reachable(w, w0, steps)
    ensures forall n :: n in w.nodes ==> KeysUnique(w.nodes[n].db)
    ensures w.inserted == |w.rows|
    ensures forall n, m :: n in w.nodes && m in w.nodes[n].db.messages ==>
      (RowId(n, m) in w.rows <==> RowId(n, m) !in w.local)
  {
    ReachableOk(w, w0, steps);
    forall n | n in w.nodes ensures KeysUnique(w.nodes[n].db) {
      assert Valid(w.nodes[n].db);
    }
    forall n, m | n in w.nodes && m in w.nodes[n].db.messages
      ensures RowId(n, m) in w.rows <==> RowId(n, m) !in w.local
    {
      if RowId(n, m) in w.rows { assert RowOk(w, RowId(n, m), w.rows[RowId(n, m)]); }
    }
  }

  /** Nobody else writes under `key` at node `n`: no local client, and no other entry. */
  ghost predicate Exclusive(w: World, n: NodeId, key: Key, from: NodeId, id: Id)
    requires n in w.nodes
  {
    && (forall m :: m in w.nodes[n].db.messages && w.nodes[n].db.messages[m].key == key ==> RowId(n, m) !in w.local)
    && (forall from', id', row, i :: Origin(w, n, row, from', id', i) && row.key == key ==> from' == from && id' == id)
  }

  /** With unique logical identifiers the row is the entry's own: it carries the header
      and ciphertext of the first item for that device. */
  lemma DeliveredOwnCiphertext(w: World, w0: World, steps: seq<Step>, n: NodeId, id: Id, i: nat, m: Id)
    requires Reachable(w, w0, steps)
    requires n in w.nodes && id in w.nodes[n].queue.outbox
    requires var e := w.nodes[n].queue.outbox[id];
      && e.status == Outbox.Delivered && e.body.Request? && First(e.body.payload, i) && e.target in w.nodes
      && Exclusive(w, e.target, ItemKey(e.body.payload, i), n, id)
      && m in w.nodes[e.target].db.messages && w.nodes[e.target].db.messages[m].key == ItemKey(e.body.payload, i)
    ensures var e := w.nodes[n].queue.outbox[id]; CarriesItem(e.body.payload, i, w.nodes[e.target].db.messages[m])
  {
    var e := w.nodes[n].queue.outbox[id];
    var row := w.nodes[e.target].db.messages[m];
    FederatedRowsAreSent(w, w0, steps, e.target, m);
    var from', id', j :| Origin(w, e.target, row, from', id', j);
    assert from' == n && id' == id;
    assert j == i;
  }

  /** A federated row points to its sender's shadow, to a local recipient and to the
      chat of exactly those two. */
  lemma FederatedRowsArePlaced(w: World, w0: World, steps: seq<Step>, n: NodeId, m: Id)
    requires Reachable(w, w0, steps)
    requires n in w.nodes && m in w.nodes[n].db.messages && RowId(n, m) !in w.local
    ensures var db := w.nodes[n].db; var row := db.messages[m];
      && row.fromDevice in db.devices && row.key.toDevice in db.devices
      && IsLocal(db, row.toUser) && row.fromUser in db.users && row.fromUser != row.toUser
      && row.chat in db.chats && {db.chats[row.chat].userA, db.chats[row.chat].userB} == {row.fromUser, row.toUser}
    ensures var db := w.nodes[n].db; var row := db.messages[m];
      exists from, id, i :: Origin(w, n, row, from, id, i) &&
        db.users[row.fromUser].address == Some(w.nodes[from].queue.outbox[id].body.payload.fromAddress)
  {
    ReachableOk(w, w0, steps);
    var r := RowId(n, m);
    var s := w.rows[r];
    var db := w.nodes[n].db; var row := db.messages[m];
    assert RowOk(w, r, s) && LetterOk(w, s.req, w.sent[s.req]);
    assert Valid(db) && RefsOk(db, row);
    assert db.chats[row.chat] == Ordered(row.fromUser, row.toUser);
    assert db.chats[row.chat].userA < db.chats[row.chat].userB;
    assert Origin(w, n, row, s.req.from, w.sent[s.req].entry, s.item);
  }

  /** Senders are told apart: two federated rows of a node share a sender row exactly
      when the same user of the same node sent them. */
  lemma ShadowsAreSenders(
    w: World, w0: World, steps: seq<Step>, n: NodeId, l: Id, m: Id, u: string, v: string, a: NodeId, b: NodeId)
    requires Reachable(w, w0, steps)
    requires n in w.nodes && l in w.nodes[n].db.messages && m in w.nodes[n].db.messages
    requires RowId(n, l) in w.rows && RowId(n, m) in w.rows
    requires w.rows[RowId(n, l)].req in w.sent && w.sent[w.rows[RowId(n, l)].req].body.fromAddress == Address(u, a)
    requires w.rows[RowId(n, m)].req in w.sent && w.sent[w.rows[RowId(n, m)].req].body.fromAddress == Address(v, b)
    requires Free(a, '@') && Free(b, '@')
    ensures w.nodes[n].db.messages[l].fromUser == w.nodes[n].db.messages[m].fromUser <==> u == v && a == b
  {
    ReachableOk(w, w0, steps);
    var db := w.nodes[n].db;
    assert RowOk(w, RowId(n, l), w.rows[RowId(n, l)]) && RowOk(w, RowId(n, m), w.rows[RowId(n, m)]);
    assert db.users[db.messages[l].fromUser].address == Some(Address(u, a));
    assert db.users[db.messages[m].fromUser].address == Some(Address(v, b));
    assert UniqueAddresses(db.users) by { assert Valid(db); }
    AddressInjective(u, a, v, b);
  }
}
