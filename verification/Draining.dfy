/** `GET /messages/pending`: a SELECT, then an UPDATE that marks everything undelivered
    as delivered, with no transaction around the two. */
module Draining {
  import opened Schema

  /** The undelivered rows of a device. */
  ghost function Undelivered(db: Db, device: Id): set<Id> {
    set m | m in db.messages && db.messages[m].key.toDevice == device && db.messages[m].deliveredAt == None
  }

  ghost function RowsOf(db: Db, device: Id): set<Id> {
    set m | m in db.messages && db.messages[m].key.toDevice == device
  }

  /** A possible answer of `... ORDER BY created_at ASC`. */
  ghost predicate IsBatch(db: Db, device: Id, batch: seq<Id>) {
    && (forall m :: m in batch <==> m in Undelivered(db, device))
    && (forall i, j :: 0 <= i < j < |batch| ==> batch[i] != batch[j])
    && (forall i, j :: 0 <= i < j < |batch| && batch[i] in db.messages && batch[j] in db.messages ==>
      db.messages[batch[i]].createdAt <= db.messages[batch[j]].createdAt)
  }

  /** A drain holds the rows it selected until its UPDATE, after which it returns them. */
  datatype Drain = Drain(device: Id, batch: seq<Id>)
  datatype State = State(db: Db, open: map<Id, Drain>, returned: map<Id, seq<Id>>)
  datatype Event =
    | Select(call: Id, device: Id, batch: seq<Id>)
    | Update(call: Id, at: Time)
    | Abandon(call: Id)
    | Other(stmt: Stmt)

  ghost function Returned(s: State, device: Id): seq<Id> {
    if device in s.returned then s.returned[device] else []
  }

  ghost predicate Enabled(s: State, e: Event) {
    match e
    case Select(c, device, batch) => c !in s.open && IsBatch(s.db, device, batch)
    case Update(c, _) => c in s.open
    case Abandon(c) => c in s.open
    case Other(stmt) => !stmt.MarkDelivered?
  }

  ghost function Next(s: State, e: Event): State
    requires Enabled(s, e)
  {
    match e
    case Select(c, device, batch) => s.(open := s.open[c := Drain(device, batch)])
    case Update(c, at) =>
      var d := s.open[c];
      State(Exec(s.db, MarkDelivered(d.device, at)), s.open - {c},
            s.returned[d.device := Returned(s, d.device) + d.batch])
    case Abandon(c) => s.(open := s.open - {c})
    case Other(stmt) => s.(db := Exec(s.db, stmt))
  }

  ghost predicate Allowed(s: State, es: seq<Event>)
    decreases |es|
  {
    es == [] || (Enabled(s, es[0]) && Allowed(Next(s, es[0]), es[1..]))
  }

  ghost function After(s: State, es: seq<Event>): State
    requires Allowed(s, es)
    decreases |es|
  {
    if es == [] then s else After(Next(s, es[0]), es[1..])
  }

  /** A drain of `device` is between its SELECT and its UPDATE. */
  ghost predicate Open(s: State, device: Id) {
    exists c :: c in s.open && s.open[c].device == device
  }

  /** Nothing for `device` happens while one of its drains is open, except that drain's own UPDATE. */
  ghost predicate Quiet(s: State, e: Event, device: Id)
    requires Enabled(s, e)
  {
    && (Open(s, device) ==> (e.Select? ==> e.device != device))
    && (Open(s, device) ==> (e.Other? ==> RowsOf(Exec(s.db, e.stmt), device) == RowsOf(s.db, device)))
  }

  ghost predicate QuietRun(s: State, es: seq<Event>, device: Id)
    requires Allowed(s, es)
    decreases |es|
  {
    es == [] || (Quiet(s, es[0], device) && QuietRun(Next(s, es[0]), es[1..], device))
  }

  ghost predicate Distinct(ids: seq<Id>) {
    forall i, j :: 0 <= i < j < |ids| ==> ids[i] != ids[j]
  }

  /** Every row of the device is either returned, once, or undelivered. */
  ghost predicate Conserved(s: State, device: Id) {
    && Distinct(Returned(s, device))
    && (forall m :: m in RowsOf(s.db, device) <==> m in Returned(s, device) || m in Undelivered(s.db, device))
    && (forall m :: m in Returned(s, device) ==> m !in Undelivered(s.db, device))
    && (forall c :: c in s.open && s.open[c].device == device ==> IsBatch(s.db, device, s.open[c].batch))
    && (forall c, d :: c in s.open && d in s.open && s.open[c].device == device && s.open[d].device == device ==>
      c == d)
  }

  lemma DistinctAppend(a: seq<Id>, b: seq<Id>)
    requires Distinct(a) && Distinct(b) && forall m :: m in a ==> m !in b
    ensures Distinct(a + b)
  {
    forall i, j | 0 <= i < j < |a + b| ensures (a + b)[i] != (a + b)[j] {
      if i < |a| <= j {
        assert a[i] in a && b[j - |a|] in b;
      }
    }
  }

  /** A statement other than the drain's UPDATE only adds undelivered rows. */
  lemma OthersOnlyAdd(db: Db, stmt: Stmt, device: Id)
    requires !stmt.MarkDelivered?
    requires (stmt.InsertMessage? || stmt.InsertFederatedMessage?) ==> stmt.row.deliveredAt == None
    ensures var db' := Exec(db, stmt);
      && (forall m :: m in db.messages ==> m in db'.messages && db'.messages[m] == db.messages[m])
      && RowsOf(db, device) <= RowsOf(db', device)
      && Undelivered(db', device) == Undelivered(db, device) + (RowsOf(db', device) - RowsOf(db, device))
  {
  }

  /** New rows are inserted undelivered, as the column's default says. */
  ghost predicate Plain(e: Event) {
    e.Other? && (e.stmt.InsertMessage? || e.stmt.InsertFederatedMessage?) ==> e.stmt.row.deliveredAt == None
  }

  lemma BatchPersists(a: Db, b: Db, device: Id, batch: seq<Id>)
    requires IsBatch(a, device, batch) && Undelivered(b, device) == Undelivered(a, device)
    requires forall m :: m in a.messages ==> m in b.messages && b.messages[m] == a.messages[m]
    ensures IsBatch(b, device, batch)
  {
    forall i | 0 <= i < |batch| ensures batch[i] in a.messages {
      var m := batch[i];
      assert m in batch;
      assert m in Undelivered(a, device);
    }
  }

  lemma OtherConserves(s: State, e: Event, device: Id)
    requires Conserved(s, device) && Enabled(s, e) && Quiet(s, e, device) && Plain(e) && e.Other?
    ensures Conserved(Next(s, e), device)
  {
    var s' := Next(s, e);
    OthersOnlyAdd(s.db, e.stmt, device);
    forall m | m in Returned(s, device) ensures m in RowsOf(s.db, device) {
    }
    forall c | c in s'.open && s'.open[c].device == device ensures IsBatch(s'.db, device, s'.open[c].batch) {
      assert Open(s, device);
      BatchPersists(s.db, s'.db, device, s.open[c].batch);
    }
  }

  lemma UpdateConserves(s: State, e: Event, device: Id)
    requires Conserved(s, device) && Enabled(s, e) && e.Update?
    ensures Conserved(Next(s, e), device)
  {
    var s' := Next(s, e);
    var d := s.open[e.call];
    assert RowsOf(s'.db, device) == RowsOf(s.db, device);
    if d.device == device {
      assert Undelivered(s'.db, device) == {};
      DistinctAppend(Returned(s, device), d.batch);
    } else {
      assert Undelivered(s'.db, device) == Undelivered(s.db, device);
      forall m | m in Undelivered(s.db, device) ensures s'.db.messages[m] == s.db.messages[m] {
      }
    }
  }

  lemma NextConserves(s: State, e: Event, device: Id)
    requires Conserved(s, device) && Enabled(s, e) && Quiet(s, e, device) && Plain(e)
    ensures Conserved(Next(s, e), device)
  {
    if e.Other? {
      OtherConserves(s, e, device);
    } else if e.Update? {
      UpdateConserves(s, e, device);
    }
  }

  /** Over any run in which no row for the device is inserted, and no other drain of it
      starts, between a SELECT and its UPDATE: what was returned and what is still
      undelivered make up exactly the rows there are, and nothing is returned twice. */
  lemma {:induction false} DrainingConserves(s: State, es: seq<Event>, device: Id)
    requires Conserved(s, device) && Allowed(s, es) && QuietRun(s, es, device)
    requires forall i :: 0 <= i < |es| ==> Plain(es[i])
    ensures Conserved(After(s, es), device)
    decreases |es|
  {
    if es != [] {
      NextConserves(s, es[0], device);
      assert forall i :: 0 <= i < |es[1..]| ==> es[1..][i] == es[i + 1];
      DrainingConserves(Next(s, es[0]), es[1..], device);
    }
  }

  // ----- What one window between SELECT and UPDATE loses -----

  ghost function ExecAll(db: Db, stmts: seq<Stmt>): Db
    decreases |stmts|
  {
    if stmts == [] then db else ExecAll(Exec(db, stmts[0]), stmts[1..])
  }

  ghost predicate NoDrain(stmts: seq<Stmt>) {
    forall i :: 0 <= i < |stmts| ==>
      && !stmts[i].MarkDelivered?
      && (stmts[i].InsertMessage? || stmts[i].InsertFederatedMessage? ==> stmts[i].row.deliveredAt == None)
  }

  lemma {:induction false} WindowOnlyAdds(db: Db, stmts: seq<Stmt>, device: Id)
    requires NoDrain(stmts)
    ensures var db' := ExecAll(db, stmts);
      && RowsOf(db, device) <= RowsOf(db', device)
      && Undelivered(db', device) == Undelivered(db, device) + (RowsOf(db', device) - RowsOf(db, device))
    decreases |stmts|
  {
    if stmts != [] {
      OthersOnlyAdd(db, stmts[0], device);
      assert forall i :: 0 <= i < |stmts[1..]| ==> stmts[1..][i] == stmts[i + 1];
      WindowOnlyAdds(Exec(db, stmts[0]), stmts[1..], device);
    }
  }

  /** Rows that this drain's UPDATE marks delivered although its SELECT did not find them. */
  ghost function Missed(db: Db, batch: seq<Id>, device: Id): set<Id> {
    set m | m in Undelivered(db, device) && m !in batch
  }

  /** With statements other than UPDATEs between a drain's SELECT and its UPDATE, the drain
      misses exactly the rows they add for the device, and none iff they add none. */
  lemma MissedExactly(db: Db, device: Id, batch: seq<Id>, stmts: seq<Stmt>)
    requires IsBatch(db, device, batch) && NoDrain(stmts)
    ensures var db' := ExecAll(db, stmts);
      && Missed(db', batch, device) == RowsOf(db', device) - RowsOf(db, device)
      && (Missed(db', batch, device) == {} <==> RowsOf(db', device) == RowsOf(db, device))
  {
    var db' := ExecAll(db, stmts);
    WindowOnlyAdds(db, stmts, device);
    assert Undelivered(db, device) <= RowsOf(db, device);
    forall m ensures m in Missed(db', batch, device) <==> m in Undelivered(db', device) - Undelivered(db, device) {
    }
    if RowsOf(db', device) != RowsOf(db, device) {
      assert RowsOf(db', device) - RowsOf(db, device) != {};
    }
  }

  /** An UPDATE of some drain of the device is among the statements. */
  ghost predicate Drains(stmts: seq<Stmt>, device: Id) {
    exists i :: 0 <= i < |stmts| && stmts[i].MarkDelivered? && stmts[i].device == device
  }

  /** What one statement does to a row of the device. */
  lemma StatementOnRow(db: Db, stmt: Stmt, device: Id, m: Id)
    requires m in RowsOf(db, device)
    ensures m in RowsOf(Exec(db, stmt), device)
    ensures m in Undelivered(Exec(db, stmt), device) <==>
      m in Undelivered(db, device) && !(stmt.MarkDelivered? && stmt.device == device)
  {
    ExecMessagesPersist(db, stmt);
    if !stmt.MarkDelivered? && Accepts(db, stmt) {
      assert Exec(db, stmt).messages[m] == db.messages[m];
    }
  }

  lemma {:induction false} DeliveredStays(db: Db, stmts: seq<Stmt>, device: Id, m: Id)
    requires m in RowsOf(db, device) && m !in Undelivered(db, device)
    ensures m !in Undelivered(ExecAll(db, stmts), device)
    decreases |stmts|
  {
    if stmts != [] {
      StatementOnRow(db, stmts[0], device, m);
      DeliveredStays(Exec(db, stmts[0]), stmts[1..], device, m);
    }
  }

  lemma DrainsRest(stmts: seq<Stmt>, device: Id)
    requires stmts != []
    ensures Drains(stmts, device) <==>
      (stmts[0].MarkDelivered? && stmts[0].device == device) || Drains(stmts[1..], device)
  {
    if Drains(stmts, device) {
      var i :| 0 <= i < |stmts| && stmts[i].MarkDelivered? && stmts[i].device == device;
      assert i > 0 ==> stmts[1..][i - 1] == stmts[i];
    }
    if Drains(stmts[1..], device) {
      var i :| 0 <= i < |stmts[1..]| && stmts[1..][i].MarkDelivered? && stmts[1..][i].device == device;
      assert stmts[i + 1] == stmts[1..][i];
    }
  }

  /** Whatever statements run, a row stays undelivered exactly when none of them drains its device. */
  lemma {:induction false} UndeliveredIff(db: Db, stmts: seq<Stmt>, device: Id, m: Id)
    requires m in Undelivered(db, device)
    ensures m in Undelivered(ExecAll(db, stmts), device) <==> !Drains(stmts, device)
    decreases |stmts|
  {
    if stmts != [] {
      DrainsRest(stmts, device);
      StatementOnRow(db, stmts[0], device, m);
      var db' := Exec(db, stmts[0]);
      if m in Undelivered(db', device) {
        UndeliveredIff(db', stmts[1..], device, m);
      } else {
        DeliveredStays(db', stmts[1..], device, m);
      }
    }
  }

  /** With any statements between the SELECTs of two drains of a device, the second one
      returns a row of the first exactly when no UPDATE for the device is among them;
      and then it returns all of them. */
  lemma OverlapReturnsTwiceIff(db: Db, device: Id, batch: seq<Id>, stmts: seq<Stmt>, again: seq<Id>)
    requires IsBatch(db, device, batch) && IsBatch(ExecAll(db, stmts), device, again)
    ensures (exists m :: m in batch && m in again) <==> batch != [] && !Drains(stmts, device)
    ensures !Drains(stmts, device) ==> forall m :: m in batch ==> m in again
  {
    forall m | m in batch ensures m in again <==> !Drains(stmts, device) {
      assert m in Undelivered(db, device);
      UndeliveredIff(db, stmts, device, m);
    }
    if batch != [] && !Drains(stmts, device) {
      var m := batch[0];
      assert m in batch && m in again;
    }
  }

  // ----- Who returns a row, over whole runs -----

  /** Call `c` is an open drain of the device that will return row `m` when it completes. */
  ghost predicate Holds(s: State, c: Id, device: Id, m: Id) {
    c in s.open && s.open[c].device == device && m in s.open[c].batch
  }

  ghost function Holders(s: State, device: Id, m: Id): set<Id> {
    set c | c in s.open && Holds(s, c, device, m)
  }

  /** How often row `m` has been returned. */
  ghost function Times(s: State, device: Id, m: Id): nat {
    multiset(Returned(s, device))[m]
  }

  ghost predicate BatchesDistinct(s: State) {
    forall c :: c in s.open ==> Distinct(s.open[c].batch)
  }

  ghost predicate Selects(e: Event, device: Id, m: Id) {
    e.Select? && e.device == device && m in e.batch
  }

  ghost predicate Drops(s: State, e: Event, device: Id, m: Id) {
    e.Abandon? && e.call in Holders(s, device, m)
  }

  /** How many drains select row `m` in a run. */
  ghost function Selected(es: seq<Event>, device: Id, m: Id): nat {
    if es == [] then 0 else (if Selects(es[0], device, m) then 1 else 0) + Selected(es[1..], device, m)
  }

  /** How many drains that hold row `m` are abandoned in a run. */
  ghost function Dropped(s: State, es: seq<Event>, device: Id, m: Id): nat
    requires Allowed(s, es)
    decreases |es|
  {
    if es == [] then 0
    else (if Drops(s, es[0], device, m) then 1 else 0) + Dropped(Next(s, es[0]), es[1..], device, m)
  }

  lemma {:induction false} OnceInDistinct(ids: seq<Id>, m: Id)
    requires Distinct(ids)
    ensures multiset(ids)[m] == if m in ids then 1 else 0
  {
    if ids != [] {
      var front, last := ids[..|ids| - 1], ids[|ids| - 1];
      assert ids == front + [last];
      OnceInDistinct(front, m);
      if m in front {
        var i :| 0 <= i < |front| && front[i] == m;
        assert ids[i] != last;
      }
    }
  }

  lemma OpenAdds(s: State, c: Id, d: Drain, device: Id, m: Id)
    requires c !in s.open
    ensures |Holders(s.(open := s.open[c := d]), device, m)| ==
      |Holders(s, device, m)| + if d.device == device && m in d.batch then 1 else 0
  {
    var s' := s.(open := s.open[c := d]);
    assert Holders(s', device, m) ==
      Holders(s, device, m) + if d.device == device && m in d.batch then {c} else {};
  }

  lemma CloseRemoves(s: State, e: Event, device: Id, m: Id)
    requires Enabled(s, e) && (e.Update? || e.Abandon?)
    ensures |Holders(Next(s, e), device, m)| + (if e.call in Holders(s, device, m) then 1 else 0) ==
      |Holders(s, device, m)|
  {
    assert Holders(Next(s, e), device, m) == Holders(s, device, m) - {e.call};
  }

  lemma UpdateReturns(s: State, e: Event, device: Id, m: Id)
    requires Enabled(s, e) && e.Update? && BatchesDistinct(s)
    ensures Times(Next(s, e), device, m) ==
      Times(s, device, m) + if e.call in Holders(s, device, m) then 1 else 0
  {
    var d := s.open[e.call];
    if d.device == device {
      assert Returned(Next(s, e), device) == Returned(s, device) + d.batch;
      OnceInDistinct(d.batch, m);
    } else {
      assert Returned(Next(s, e), device) == Returned(s, device);
    }
  }

  /** One event moves copies of a row between being held and being returned; only a
      SELECT makes one and only an abandoned drain loses one. */
  lemma NextCopies(s: State, e: Event, device: Id, m: Id)
    requires Enabled(s, e) && BatchesDistinct(s)
    ensures BatchesDistinct(Next(s, e))
    ensures Times(Next(s, e), device, m) + |Holders(Next(s, e), device, m)| + (if Drops(s, e, device, m) then 1 else 0)
      == Times(s, device, m) + |Holders(s, device, m)| + if Selects(e, device, m) then 1 else 0
  {
    match e
    case Select(c, d, batch) =>
      OpenAdds(s, c, Drain(d, batch), device, m);
      assert Returned(Next(s, e), device) == Returned(s, device);
    case Update(_, _) =>
      CloseRemoves(s, e, device, m);
      UpdateReturns(s, e, device, m);
    case Abandon(_) =>
      CloseRemoves(s, e, device, m);
      assert Returned(Next(s, e), device) == Returned(s, device);
    case Other(_) =>
      assert Holders(Next(s, e), device, m) == Holders(s, device, m);
      assert Returned(Next(s, e), device) == Returned(s, device);
  }

  /** Over any run a row is returned once for each drain that selects it, less those that
      are abandoned and those that are still open. */
  lemma {:induction false} ReturnedPerHolder(s: State, es: seq<Event>, device: Id, m: Id)
    requires Allowed(s, es) && BatchesDistinct(s)
    ensures BatchesDistinct(After(s, es))
    ensures Times(After(s, es), device, m) + |Holders(After(s, es), device, m)| + Dropped(s, es, device, m)
      == Times(s, device, m) + |Holders(s, device, m)| + Selected(es, device, m)
    decreases |es|
  {
    if es != [] {
      NextCopies(s, es[0], device, m);
      ReturnedPerHolder(Next(s, es[0]), es[1..], device, m);
    }
  }

  lemma MarkedStays(s: State, e: Event, device: Id, m: Id)
    requires Enabled(s, e) && m in RowsOf(s.db, device) && m !in Undelivered(s.db, device)
    ensures m in RowsOf(Next(s, e).db, device) && m !in Undelivered(Next(s, e).db, device)
    ensures !Selects(e, device, m)
  {
    if e.Update? {
      StatementOnRow(s.db, MarkDelivered(s.open[e.call].device, e.at), device, m);
    } else if e.Other? {
      StatementOnRow(s.db, e.stmt, device, m);
    }
  }

  lemma {:induction false} NotSelectedAgain(s: State, es: seq<Event>, device: Id, m: Id)
    requires Allowed(s, es) && m in RowsOf(s.db, device) && m !in Undelivered(s.db, device)
    ensures Selected(es, device, m) == 0
    decreases |es|
  {
    if es != [] {
      MarkedStays(s, es[0], device, m);
      NotSelectedAgain(Next(s, es[0]), es[1..], device, m);
    }
  }

  lemma AllowedStep(s: State, e: Event, es: seq<Event>)
    requires Enabled(s, e) && Allowed(Next(s, e), es)
    ensures Allowed(s, [e] + es) && After(s, [e] + es) == After(Next(s, e), es)
  {
    assert ([e] + es)[1..] == es;
  }

  lemma {:induction false} AllHoldersComplete(s: State, device: Id, m: Id) returns (es: seq<Event>)
    requires BatchesDistinct(s)
    ensures Allowed(s, es) && Times(After(s, es), device, m) == Times(s, device, m) + |Holders(s, device, m)|
    decreases |Holders(s, device, m)|
  {
    es := [];
    if exists c :: c in Holders(s, device, m) {
      var c :| c in Holders(s, device, m);
      var e := Update(c, 0);
      CloseRemoves(s, e, device, m);
      UpdateReturns(s, e, device, m);
      NextCopies(s, e, device, m);
      var rest := AllHoldersComplete(Next(s, e), device, m);
      AllowedStep(s, e, rest);
      es := [e] + rest;
    } else {
      assert Holders(s, device, m) == {};
    }
  }

  /** From the moment a row is marked delivered it can still be returned `k` more times
      exactly if at least `k` open drains hold it. */
  lemma ReturnsLeftIff(s: State, device: Id, m: Id, k: nat)
    requires BatchesDistinct(s) && m in RowsOf(s.db, device) && m !in Undelivered(s.db, device)
    ensures (exists es :: Allowed(s, es) && Times(After(s, es), device, m) >= Times(s, device, m) + k) <==>
      k <= |Holders(s, device, m)|
  {
    forall es | Allowed(s, es)
      ensures Times(After(s, es), device, m) <= Times(s, device, m) + |Holders(s, device, m)|
    {
      ReturnedPerHolder(s, es, device, m);
      NotSelectedAgain(s, es, device, m);
    }
    var es := AllHoldersComplete(s, device, m);
  }

  // ----- Which rows are lost for good -----

  lemma {:induction false} OldestOf(db: Db, ids: set<Id>) returns (first: Id)
    requires (exists m :: m in ids) && forall m :: m in ids ==> m in db.messages
    ensures first in ids && forall m :: m in ids ==> db.messages[first].createdAt <= db.messages[m].createdAt
    decreases |ids|
  {
    first :| first in ids;
    var rest := ids - {first};
    if exists m :: m in rest {
      var other := OldestOf(db, rest);
      if db.messages[other].createdAt < db.messages[first].createdAt {
        first := other;
      }
    }
  }

  /** `batch` lists `ids`, each once, oldest first. */
  ghost predicate Lists(db: Db, ids: set<Id>, batch: seq<Id>) {
    && (forall m :: m in batch <==> m in ids) && Distinct(batch)
    && (forall i, j :: 0 <= i < j < |batch| && batch[i] in db.messages && batch[j] in db.messages ==>
      db.messages[batch[i]].createdAt <= db.messages[batch[j]].createdAt)
  }

  lemma {:induction false} ListOf(db: Db, ids: set<Id>) returns (batch: seq<Id>)
    requires forall m :: m in ids ==> m in db.messages
    ensures Lists(db, ids, batch)
    decreases |ids|
  {
    batch := [];
    if exists m :: m in ids {
      var first := OldestOf(db, ids);
      var rest := ListOf(db, ids - {first});
      batch := [first] + rest;
      forall i | 0 <= i < |rest| ensures rest[i] in ids && rest[i] != first {
        var m := rest[i];
        assert m in rest;
      }
    }
  }

  lemma UndeliveredCanReturn(s: State, device: Id, m: Id) returns (es: seq<Event>)
    requires m in Undelivered(s.db, device)
    ensures Allowed(s, es) && m in Returned(After(s, es), device)
  {
    var batch := ListOf(s.db, Undelivered(s.db, device));
    var c := Bound(s.open.Keys);
    var e0, e1 := Select(c, device, batch), Update(c, 0);
    AllowedStep(Next(s, e0), e1, []);
    AllowedStep(s, e0, [e1] + []);
    es := [e0] + ([e1] + []);
  }

  lemma {:induction false} ReturnedStays(s: State, es: seq<Event>, device: Id, m: Id)
    requires Allowed(s, es) && m in Returned(s, device)
    ensures m in Returned(After(s, es), device)
    decreases |es|
  {
    if es != [] {
      assert m in Returned(Next(s, es[0]), device);
      ReturnedStays(Next(s, es[0]), es[1..], device, m);
    }
  }

  /** A row is never returned, in whatever run from here, exactly when it has not been, is
      marked delivered, and no open drain holds it. */
  lemma LostForGoodIff(s: State, device: Id, m: Id)
    requires BatchesDistinct(s) && m in RowsOf(s.db, device)
    ensures (forall es :: Allowed(s, es) ==> m !in Returned(After(s, es), device)) <==>
      m !in Returned(s, device) && m !in Undelivered(s.db, device) && Holders(s, device, m) == {}
  {
    if m in Undelivered(s.db, device) {
      var es := UndeliveredCanReturn(s, device, m);
    } else {
      forall es | Allowed(s, es) && Holders(s, device, m) == {} && m !in Returned(s, device)
        ensures m !in Returned(After(s, es), device)
      {
        ReturnedPerHolder(s, es, device, m);
        NotSelectedAgain(s, es, device, m);
      }
      var es := AllHoldersComplete(s, device, m);
      if m in Returned(s, device) {
        ReturnedStays(s, es, device, m);
      }
    }
  }

  /** A drain's UPDATE loses an undelivered row for good exactly when no open drain of the
      device, itself included, has selected it. */
  lemma UpdateLosesIff(s: State, c: Id, at: Time, m: Id)
    requires BatchesDistinct(s) && c in s.open
    requires m in Undelivered(s.db, s.open[c].device) && m !in Returned(s, s.open[c].device)
    ensures var z, device := Next(s, Update(c, at)), s.open[c].device;
      (forall es :: Allowed(z, es) ==> m !in Returned(After(z, es), device)) <==>
      !exists d :: Holds(s, d, device, m)
  {
    var z, device := Next(s, Update(c, at)), s.open[c].device;
    MarkedByUpdate(s, c, at, m);
    LostForGoodIff(z, device, m);
    HoldersIff(s, device, m);
  }

  lemma HoldersIff(s: State, device: Id, m: Id)
    ensures Holders(s, device, m) == {} <==>
      !exists d :: Holds(s, d, device, m)
  {
    if d :| Holds(s, d, device, m) {
      assert d in Holders(s, device, m);
    } else {
      assert Holders(s, device, m) == {};
    }
  }

  lemma MarkedByUpdate(s: State, c: Id, at: Time, m: Id)
    requires BatchesDistinct(s) && c in s.open
    requires m in Undelivered(s.db, s.open[c].device) && m !in Returned(s, s.open[c].device)
    ensures var z, device := Next(s, Update(c, at)), s.open[c].device;
      && BatchesDistinct(z) && m in RowsOf(z.db, device) && m !in Undelivered(z.db, device)
      && (m !in Returned(z, device) && Holders(z, device, m) == {} <==> Holders(s, device, m) == {})
  {
    var z, device := Next(s, Update(c, at)), s.open[c].device;
    NextCopies(s, Update(c, at), device, m);
    StatementOnRow(s.db, MarkDelivered(device, at), device, m);
    assert Returned(z, device) == Returned(s, device) + s.open[c].batch;
    assert Holders(z, device, m) == Holders(s, device, m) - {c};
    assert c in Holders(s, device, m) <==> m in s.open[c].batch;
  }

  // ----- Runs in which conservation fails -----

  ghost function Fresh(db: Db): State {
    State(db, map[], map[])
  }

  /** A row inserted between the SELECT and the UPDATE of a drain that found nothing is
      there afterwards and is returned in no continuation. */
  lemma InsertIsLost(db: Db, device: Id, id: Id, row: Message, at: Time) returns (es: seq<Event>)
    requires Undelivered(db, device) == {} && Accepts(db, InsertMessage(id, row))
    requires row.key.toDevice == device && row.deliveredAt == None
    ensures Allowed(Fresh(db), es) && forall i :: 0 <= i < |es| ==> Plain(es[i])
    ensures var z := After(Fresh(db), es);
      && id in RowsOf(z.db, device)
      && forall more :: Allowed(z, more) ==> id !in Returned(After(z, more), device)
  {
    var e0, e1, e2 := Select(0, device, []), Other(InsertMessage(id, row)), Update(0, at);
    var s1 := Next(Fresh(db), e0);
    var s2 := Next(s1, e1);
    var s3 := Next(s2, e2);
    AllowedStep(s2, e2, []);
    AllowedStep(s1, e1, [e2] + []);
    AllowedStep(Fresh(db), e0, [e1] + ([e2] + []));
    es := [e0] + ([e1] + ([e2] + []));
    assert After(Fresh(db), es) == s3;
    assert id in RowsOf(s2.db, device);
    StatementOnRow(s2.db, MarkDelivered(device, at), device, id);
    LostForGoodIff(s3, device, id);
  }

  /** Two drains that both select before the first UPDATE return a row twice. */
  lemma OverlapRepeats(db: Db, device: Id, m: Id, at: Time) returns (es: seq<Event>)
    requires Undelivered(db, device) == {m}
    ensures Allowed(Fresh(db), es) && forall i :: 0 <= i < |es| ==> Plain(es[i])
    ensures Returned(After(Fresh(db), es), device) == [m, m]
  {
    var e0, e1, e2, e3 := Select(0, device, [m]), Select(1, device, [m]), Update(0, at), Update(1, at);
    assert IsBatch(db, device, [m]);
    var s1 := Next(Fresh(db), e0);
    var s2 := Next(s1, e1);
    var s3 := Next(s2, e2);
    AllowedStep(s3, e3, []);
    AllowedStep(s2, e2, [e3] + []);
    AllowedStep(s1, e1, [e2] + ([e3] + []));
    AllowedStep(Fresh(db), e0, [e1] + ([e2] + ([e3] + [])));
    es := [e0] + ([e1] + ([e2] + ([e3] + [])));
    assert Returned(s3, device) == [m];
    assert After(Fresh(db), es) == Next(s3, e3);
  }

  /** Alice (user 0, device 0) and Bob (user 1, device 1) with their chat. */
  function AliceAndBob(): Db {
    Db(map[0 := User("alice", None, None), 1 := User("bob", None, None)],
       map[0 := Device(0, "a"), 1 := Device(1, "b")],
       map[0 := Chat(0, 1)], map[], map[], map[])
  }

  function ToBob(): Message {
    Message(Key("m", 1), 0, 0, 0, 1, "header", "ciphertext", 0, None)
  }

  lemma ToBobAccepted()
    ensures Valid(AliceAndBob()) && Accepts(AliceAndBob(), InsertMessage(0, ToBob()))
  {
  }

  /** From tables that conserve, a run of one drain and one insert loses the message. */
  lemma DrainCanLose() returns (db: Db, es: seq<Event>)
    ensures Valid(db) && Conserved(Fresh(db), 1)
    ensures Allowed(Fresh(db), es) && forall i :: 0 <= i < |es| ==> Plain(es[i])
    ensures var z := After(Fresh(db), es);
      0 in RowsOf(z.db, 1) && forall more :: Allowed(z, more) ==> 0 !in Returned(After(z, more), 1)
  {
    ToBobAccepted();
    db := AliceAndBob();
    es := InsertIsLost(db, 1, 0, ToBob(), 5);
  }

  /** From tables that conserve, a run of two drains returns the message twice. */
  lemma DrainCanRepeat() returns (db: Db, es: seq<Event>)
    ensures Valid(db) && Conserved(Fresh(db), 1)
    ensures Allowed(Fresh(db), es) && forall i :: 0 <= i < |es| ==> Plain(es[i])
    ensures Returned(After(Fresh(db), es), 1) == [0, 0]
  {
    ToBobAccepted();
    db := Exec(AliceAndBob(), InsertMessage(0, ToBob()));
    ExecKeepsValid(AliceAndBob(), InsertMessage(0, ToBob()));
    assert db.messages == map[0 := ToBob()];
    es := OverlapRepeats(db, 1, 0, 5);
  }
}
