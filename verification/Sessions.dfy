/** `POST /sessions/confirm`: five statements and no transaction.

    Any number of runs of one confirmation may overlap, die between two statements
    and be repeated. */
module Sessions {
  import opened Schema
  import Chats

  /** `device` is the authenticated caller; the other three come from the body. */
  datatype Confirm = Confirm(pending: Id, device: Id, sender: Id, receiver: Id)
  datatype Pc = Loading | Finding | Opening | Linking(chat: Id) | Clearing | Confirmed | Stopped
  datatype System = System(db: Db, runs: seq<Pc>)
  datatype Move = Work(run: nat, uuid: Id) | Abort(run: nat)

  ghost function Target(db: Db, job: Confirm): Option<Chat> {
    Chats.Target(db, Chats.ByDevices(job.sender, job.receiver))
  }

  ghost function Advance(job: Confirm, pc: Pc, db: Db, uuid: Id): (Pc, Db) {
    match pc
    case Loading =>
      (if job.pending in db.pending && db.pending[job.pending].recipient == job.device then Finding else Stopped, db)
    case Finding =>
      var t := Target(db, job);
      (if t.Some? && ChatKnown(db, t.value) then Linking(ChatAt(db, t.value)) else Opening, db)
    case Opening =>
      (match Target(db, job)
       case None => (Stopped, db)
       case Some(t) =>
         var s := InsertChat(uuid, t.userA, t.userB);
         (if Accepts(db, s) then Linking(uuid) else Stopped, Exec(db, s)))
    case Linking(chat) =>
      var s := UpsertSession(uuid, Session(chat, job.sender, job.receiver));
      (if Accepts(db, s) then Clearing else Stopped, Exec(db, s))
    case Clearing => (Confirmed, Exec(db, DeletePending(job.pending)))
    case _ => (pc, db)
  }

  ghost function Apply(job: Confirm, s: System, m: Move): System {
    if m.run >= |s.runs| || s.runs[m.run].Confirmed? then s
    else
      match m
      case Abort(i) => s.(runs := s.runs[i := Stopped])
      case Work(i, uuid) =>
        var (pc, db) := Advance(job, s.runs[i], s.db, uuid);
        System(db, s.runs[i := pc])
  }

  ghost function Play(job: Confirm, s: System, schedule: seq<Move>): System
    decreases |schedule|
  {
    if schedule == [] then s else Play(job, Apply(job, s, schedule[0]), schedule[1..])
  }

  ghost function Start(db: Db, n: nat): System {
    System(db, seq(n, _ => Loading))
  }

  ghost predicate Succeeded(s: System) {
    exists i :: 0 <= i < |s.runs| && s.runs[i].Confirmed?
  }

  // ----- Upper bound and lower bound -----

  ghost predicate NewSession(job: Confirm, db0: Db, db: Db, row: Session) {
    && row.sender == job.sender && row.receiver == job.receiver && !SessionKnown(db0, row)
    && row.chat in db.chats && Target(db0, job) == Some(db.chats[row.chat])
  }

  ghost predicate Between(job: Confirm, db0: Db, db: Db) {
    && db.users == db0.users && db.devices == db0.devices && db.messages == db0.messages
    && RowsPersist(db0.chats, db.chats) && RowsPersist(db0.sessions, db.sessions)
    && (forall c :: c in db.chats && c !in db0.chats ==> Target(db0, job) == Some(db.chats[c]))
    && (forall s :: s in db.sessions && s !in db0.sessions ==> NewSession(job, db0, db, db.sessions[s]))
    && (db.pending == db0.pending || db.pending == db0.pending - {job.pending})
  }

  ghost predicate Linked(job: Confirm, db: Db) {
    && Target(db, job).Some? && ChatKnown(db, Target(db, job).value)
    && exists s :: s in db.sessions && db.sessions[s].sender == job.sender && db.sessions[s].receiver == job.receiver
  }

  ghost predicate PcOk(job: Confirm, pc: Pc, db: Db) {
    match pc
    case Linking(chat) => chat in db.chats && Target(db, job) == Some(db.chats[chat])
    case Clearing => Linked(job, db)
    case Confirmed => Linked(job, db) && job.pending !in db.pending
    case _ => true
  }

  ghost predicate Inv(job: Confirm, db0: Db, s: System) {
    && Valid(db0) && Valid(s.db) && Between(job, db0, s.db)
    && forall i :: 0 <= i < |s.runs| ==> PcOk(job, s.runs[i], s.db)
  }

  /** What a statement of one run keeps of the others. */
  ghost predicate Follows(a: Db, b: Db) {
    && b.devices == a.devices && RowsPersist(a.chats, b.chats) && RowsPersist(a.sessions, b.sessions)
    && b.pending.Keys <= a.pending.Keys
  }

  lemma PcPersists(job: Confirm, a: Db, b: Db, pc: Pc)
    requires Follows(a, b) && PcOk(job, pc, a)
    ensures PcOk(job, pc, b)
  {
  }

  lemma OpenKeepsBetween(job: Confirm, db0: Db, db: Db, uuid: Id, t: Chat)
    requires Between(job, db0, db) && Target(db, job) == Some(t)
    ensures var db' := Exec(db, InsertChat(uuid, t.userA, t.userB)); Between(job, db0, db') && Follows(db, db')
  {
  }

  lemma LinkKeepsBetween(job: Confirm, db0: Db, db: Db, uuid: Id, chat: Id)
    requires Between(job, db0, db) && chat in db.chats && Target(db, job) == Some(db.chats[chat])
    ensures var db' := Exec(db, UpsertSession(uuid, Session(chat, job.sender, job.receiver)));
      Between(job, db0, db') && Follows(db, db')
  {
    var row := Session(chat, job.sender, job.receiver);
    if !SessionKnown(db, row) {
      NotKnownBefore(db0, db, row);
    }
  }

  lemma ClearKeepsBetween(job: Confirm, db0: Db, db: Db)
    requires Between(job, db0, db)
    ensures var db' := Exec(db, DeletePending(job.pending)); Between(job, db0, db') && Follows(db, db')
  {
  }

  lemma WorkKeepsBetween(job: Confirm, db0: Db, db: Db, pc: Pc, uuid: Id)
    requires Valid(db) && Between(job, db0, db) && PcOk(job, pc, db)
    ensures var db' := Advance(job, pc, db, uuid).1; Valid(db') && Between(job, db0, db') && Follows(db, db')
  {
    if pc.Opening? && Target(db, job).Some? {
      var t := Target(db, job).value;
      ExecKeepsValid(db, InsertChat(uuid, t.userA, t.userB));
      OpenKeepsBetween(job, db0, db, uuid, t);
    } else if pc.Linking? {
      ExecKeepsValid(db, UpsertSession(uuid, Session(pc.chat, job.sender, job.receiver)));
      LinkKeepsBetween(job, db0, db, uuid, pc.chat);
    } else if pc.Clearing? {
      ExecKeepsValid(db, DeletePending(job.pending));
      ClearKeepsBetween(job, db0, db);
    }
  }

  lemma NotKnownBefore(db0: Db, db: Db, row: Session)
    requires RowsPersist(db0.sessions, db.sessions) && !SessionKnown(db, row)
    ensures !SessionKnown(db0, row)
  {
  }

  lemma WorkKeepsPc(job: Confirm, db0: Db, db: Db, pc: Pc, uuid: Id)
    requires Between(job, db0, db) && PcOk(job, pc, db)
    ensures var (pc', db') := Advance(job, pc, db, uuid); PcOk(job, pc', db')
  {
    var (pc', db') := Advance(job, pc, db, uuid);
    if pc.Linking? && pc'.Clearing? {
      assert ChatKnown(db', Target(db', job).value);
      var row := Session(pc.chat, job.sender, job.receiver);
      if SessionKnown(db, row) {
        var s :| s in db.sessions && SamePair(db.sessions[s], row);
        assert s in db'.sessions;
      } else {
        assert uuid in db'.sessions && db'.sessions[uuid] == row;
      }
    }
  }

  lemma ApplyKeepsInv(job: Confirm, db0: Db, s: System, m: Move)
    requires Inv(job, db0, s)
    ensures Inv(job, db0, Apply(job, s, m))
  {
    var s' := Apply(job, s, m);
    if s' != s && m.Work? {
      assert PcOk(job, s.runs[m.run], s.db);
      WorkKeepsBetween(job, db0, s.db, s.runs[m.run], m.uuid);
      forall i | 0 <= i < |s'.runs| ensures PcOk(job, s'.runs[i], s'.db) {
        if i == m.run {
          WorkKeepsPc(job, db0, s.db, s.runs[i], m.uuid);
        } else {
          PcPersists(job, s.db, s'.db, s.runs[i]);
        }
      }
    }
  }

  lemma {:induction false} PlayKeepsInv(job: Confirm, db0: Db, s: System, schedule: seq<Move>)
    requires Inv(job, db0, s)
    ensures Inv(job, db0, Play(job, s, schedule))
    decreases |schedule|
  {
    if schedule != [] {
      ApplyKeepsInv(job, db0, s, schedule[0]);
      PlayKeepsInv(job, db0, Apply(job, s, schedule[0]), schedule[1..]);
    }
  }

  // ----- The outcome, without generated identifiers -----

  ghost function ChatRows(db: Db): set<Chat> {
    set c | c in db.chats :: db.chats[c]
  }

  ghost function SessionRow(db: Db, s: Session): (Option<Chat>, Id, Id) {
    (if s.chat in db.chats then Some(db.chats[s.chat]) else None, s.sender, s.receiver)
  }

  ghost function SessionRows(db: Db): set<(Option<Chat>, Id, Id)> {
    set s | s in db.sessions :: SessionRow(db, db.sessions[s])
  }

  /** Some session from `sender` to `receiver` exists. */
  ghost predicate HasSession(db: Db, sender: Id, receiver: Id) {
    exists s :: s in db.sessions && db.sessions[s].sender == sender && db.sessions[s].receiver == receiver
  }

  ghost predicate Outcome(job: Confirm, db0: Db, db: Db) {
    && Target(db0, job).Some?
    && ChatRows(db) == ChatRows(db0) + {Target(db0, job).value}
    && SessionRows(db) == SessionRows(db0) +
      (if HasSession(db0, job.sender, job.receiver) then {} else {(Target(db0, job), job.sender, job.receiver)})
    && db.pending == db0.pending - {job.pending}
    && db.users == db0.users && db.devices == db0.devices && db.messages == db0.messages
  }

  lemma ChatsOutcome(job: Confirm, db0: Db, db: Db)
    requires Valid(db0) && Between(job, db0, db) && Linked(job, db)
    ensures ChatRows(db) == ChatRows(db0) + {Target(db0, job).value}
  {
  }

  lemma SessionsOutcome(job: Confirm, db0: Db, db: Db)
    requires Valid(db0) && Between(job, db0, db) && Linked(job, db)
    ensures SessionRows(db) == SessionRows(db0) +
      (if HasSession(db0, job.sender, job.receiver) then {} else {(Target(db0, job), job.sender, job.receiver)})
  {
  }

  lemma LinkedOutcome(job: Confirm, db0: Db, db: Db)
    requires Valid(db0) && Between(job, db0, db) && PcOk(job, Confirmed, db)
    ensures Outcome(job, db0, db)
  {
    ChatsOutcome(job, db0, db);
    SessionsOutcome(job, db0, db);
    if db.pending == db0.pending {
      assert db0.pending - {job.pending} == db0.pending;
    }
  }

  /** Every schedule in which some run succeeds has the same outcome: the pair's chat,
      one session from sender to receiver, and the pending session gone. */
  lemma ConfirmedOutcome(job: Confirm, db0: Db, n: nat, schedule: seq<Move>)
    requires Valid(db0) && Succeeded(Play(job, Start(db0, n), schedule))
    ensures Outcome(job, db0, Play(job, Start(db0, n), schedule).db)
    ensures SessionsOk(Play(job, Start(db0, n), schedule).db)
  {
    PlayKeepsInv(job, db0, Start(db0, n), schedule);
    var s := Play(job, Start(db0, n), schedule);
    var i :| 0 <= i < |s.runs| && s.runs[i].Confirmed?;
    assert PcOk(job, s.runs[i], s.db);
    LinkedOutcome(job, db0, s.db);
  }

  // ----- A run left alone -----

  ghost function Alone(job: Confirm, pc: Pc, db: Db, uuid: Id, steps: nat): (Pc, Db)
    decreases steps
  {
    if steps == 0 then (pc, db)
    else
      var (pc', db') := Advance(job, pc, db, uuid);
      Alone(job, pc', db', uuid, steps - 1)
  }

  /** The caller owns the pending session and the two devices belong to different users. */
  ghost predicate Confirmable(job: Confirm, db: Db) {
    && job.pending in db.pending && db.pending[job.pending].recipient == job.device
    && job.sender in db.devices && job.receiver in db.devices
    && db.devices[job.sender].owner != db.devices[job.receiver].owner
  }

  /** With unused identifiers, a run that nobody disturbs confirms exactly when it may. */
  lemma AloneConfirmsIff(job: Confirm, db: Db, uuid: Id)
    requires Valid(db) && uuid !in db.chats && uuid !in db.sessions
    ensures Alone(job, Loading, db, uuid, 5).0.Confirmed? <==> Confirmable(job, db)
  {
  }

  lemma {:induction false} AloneSplit(job: Confirm, pc: Pc, db: Db, uuid: Id, steps: nat, more: nat)
    ensures Alone(job, pc, db, uuid, steps + more) ==
      var (pc', db') := Alone(job, pc, db, uuid, steps); Alone(job, pc', db', uuid, more)
    decreases steps
  {
    if steps > 0 {
      var (pc', db') := Advance(job, pc, db, uuid);
      AloneSplit(job, pc', db', uuid, steps - 1, more);
    }
  }

  lemma AloneSnoc(job: Confirm, pc: Pc, db: Db, uuid: Id, steps: nat)
    ensures Alone(job, pc, db, uuid, steps + 1) ==
      var (pc', db') := Alone(job, pc, db, uuid, steps); Advance(job, pc', db', uuid)
  {
    AloneSplit(job, pc, db, uuid, steps, 1);
    var (pc', db') := Alone(job, pc, db, uuid, steps);
    var (pc'', db'') := Advance(job, pc', db', uuid);
    assert Alone(job, pc'', db'', uuid, 0) == (pc'', db'');
  }

  lemma {:induction false} AloneEnds(job: Confirm, db: Db, uuid: Id, k: nat, steps: nat)
    requires k <= steps
    requires var pc := Alone(job, Loading, db, uuid, k).0; pc.Confirmed? || pc.Stopped?
    ensures Alone(job, Loading, db, uuid, steps) == Alone(job, Loading, db, uuid, k)
    decreases steps
  {
    if k < steps {
      AloneEnds(job, db, uuid, k, steps - 1);
      AloneSnoc(job, Loading, db, uuid, steps - 1);
    }
  }

  lemma {:induction false} AloneKeeps(job: Confirm, db0: Db, db: Db, pc: Pc, uuid: Id, steps: nat)
    requires Valid(db) && Between(job, db0, db) && PcOk(job, pc, db)
    ensures var (pc', db') := Alone(job, pc, db, uuid, steps);
      Valid(db') && Between(job, db0, db') && PcOk(job, pc', db')
    decreases steps
  {
    if steps > 0 {
      WorkKeepsBetween(job, db0, db, pc, uuid);
      WorkKeepsPc(job, db0, db, pc, uuid);
      var (pc', db') := Advance(job, pc, db, uuid);
      AloneKeeps(job, db0, db', pc', uuid, steps - 1);
    }
  }

  lemma AloneOutcome(job: Confirm, db0: Db, uuid: Id, steps: nat)
    requires Valid(db0)
    ensures var (pc, db) := Alone(job, Loading, db0, uuid, steps);
      Valid(db) && Between(job, db0, db) && (pc.Confirmed? ==> Outcome(job, db0, db))
  {
    AloneKeeps(job, db0, db0, Loading, uuid, steps);
    var (pc, db) := Alone(job, Loading, db0, uuid, steps);
    if pc.Confirmed? {
      LinkedOutcome(job, db0, db);
    }
  }

  // ----- A retry after aborted runs -----

  /** Every run past its first statement found the caller's pending session, and only a
      run that succeeds takes it away. */
  ghost predicate Kept(job: Confirm, db0: Db, s: System) {
    && (s.db.pending == db0.pending || Succeeded(s))
    && forall i :: 0 <= i < |s.runs| && !s.runs[i].Loading? && !s.runs[i].Stopped? ==>
      job.pending in db0.pending && db0.pending[job.pending].recipient == job.device
  }

  lemma SuccessStays(job: Confirm, s: System, m: Move)
    requires Succeeded(s)
    ensures Succeeded(Apply(job, s, m))
  {
    var i :| 0 <= i < |s.runs| && s.runs[i].Confirmed?;
    assert Apply(job, s, m).runs[i].Confirmed?;
  }

  lemma OnlySuccessDeletes(job: Confirm, s: System, m: Move)
    requires Apply(job, s, m).db.pending != s.db.pending
    ensures Succeeded(Apply(job, s, m))
  {
    assert Apply(job, s, m).runs[m.run].Confirmed?;
  }

  lemma ApplyKeeps(job: Confirm, db0: Db, s: System, m: Move)
    requires Between(job, db0, s.db) && Kept(job, db0, s)
    ensures Kept(job, db0, Apply(job, s, m))
  {
    if Succeeded(s) {
      SuccessStays(job, s, m);
    } else if Apply(job, s, m).db.pending != s.db.pending {
      OnlySuccessDeletes(job, s, m);
    }
  }

  lemma {:induction false} PlayKeeps(job: Confirm, db0: Db, s: System, schedule: seq<Move>)
    requires Inv(job, db0, s) && Kept(job, db0, s)
    ensures Inv(job, db0, Play(job, s, schedule)) && Kept(job, db0, Play(job, s, schedule))
    decreases |schedule|
  {
    if schedule != [] {
      ApplyKeepsInv(job, db0, s, schedule[0]);
      ApplyKeeps(job, db0, s, schedule[0]);
      PlayKeeps(job, db0, Apply(job, s, schedule[0]), schedule[1..]);
    }
  }

  lemma LinkedOwners(job: Confirm, db0: Db, db: Db)
    requires ChatsOk(db) && Between(job, db0, db) && Linked(job, db)
    ensures job.sender in db0.devices && job.receiver in db0.devices
    ensures db0.devices[job.sender].owner != db0.devices[job.receiver].owner
  {
    var t := Target(db, job).value;
    assert db.chats[ChatAt(db, t)].userA < db.chats[ChatAt(db, t)].userB;
  }

  /** Whatever runs came before, overlapped and died, a further run left alone confirms
      exactly when one alone could have from the start and none has yet; then the outcome
      is the one it would have had from the start. */
  lemma RetryConfirmsIff(job: Confirm, db0: Db, n: nat, schedule: seq<Move>, uuid: Id)
    requires Valid(db0)
    requires var db := Play(job, Start(db0, n), schedule).db; uuid !in db.chats && uuid !in db.sessions
    ensures var z := Play(job, Start(db0, n), schedule);
      && (Succeeded(z) ==> Confirmable(job, db0))
      && var (pc, db) := Alone(job, Loading, z.db, uuid, 5);
        && (pc.Confirmed? <==> Confirmable(job, db0) && !Succeeded(z))
        && (pc.Confirmed? ==> Outcome(job, db0, db))
  {
    PlayKeeps(job, db0, Start(db0, n), schedule);
    var z := Play(job, Start(db0, n), schedule);
    AloneConfirmsIff(job, z.db, uuid);
    if Succeeded(z) {
      var i :| 0 <= i < |z.runs| && z.runs[i].Confirmed?;
      assert PcOk(job, z.runs[i], z.db);
      LinkedOwners(job, db0, z.db);
    }
    AloneKeeps(job, db0, z.db, Loading, uuid, 5);
    var (pc, db) := Alone(job, Loading, z.db, uuid, 5);
    if pc.Confirmed? {
      LinkedOutcome(job, db0, db);
    }
  }
}
