/** Create and delete requests as transitions of two systems, kweb and the store, and what they conserve. */
module Service {
  import opened Resource
  import opened StoreModel
  import opened Machine
  import opened Poll
  import opened Rounds

  /** kweb's names of both kinds, the shared state, and how many changing calls kweb has received. */
  datatype Systems = Systems(world: World, vms: set<string>, clusters: set<string>, calls: nat)

  datatype KwebReply = Accepted | Conflict | Unreachable | Failure

  datatype Response = Created(id: string, status: string) | NoContent | Problem(code: int)

  /** `clientId` and `metadataName` are empty when the request has none; `acceptable` is the profile or type check. */
  datatype CreateRequest = CreateRequest(clientId: string, metadataName: string, acceptable: bool)

  /** What the request cannot choose: fresh identifiers, the clock, and how kweb and the disk behave. */
  datatype CreateOracle = CreateOracle(
    freshId: string, freshName: string, now: int, kweb: KwebReply, putOk: bool, rollbackOk: bool)

  datatype DeleteOracle = DeleteOracle(kweb: KwebReply, markOk: bool, restoreOk: bool, eraseOk: bool)

  function ResolveName(req: CreateRequest, freshName: string): string {
    if req.metadataName != "" then req.metadataName
    else if req.clientId != "" then (if |req.clientId| > 63 then req.clientId[..63] else req.clientId)
    else freshName
  }

  function ResolveId(req: CreateRequest, freshId: string): string {
    if req.clientId != "" then req.clientId else freshId
  }

  function InKweb(s: Systems, kind: string): set<string> {
    if kind == VM then s.vms else s.clusters
  }

  function WithKweb(s: Systems, kind: string, names: set<string>): Systems {
    if kind == VM then s.(vms := names, calls := s.calls + 1) else s.(clusters := names, calls := s.calls + 1)
  }

  function FailureCode(reply: KwebReply): int {
    match reply
    case Conflict => 409
    case Unreachable => 502
    case _ => 500
  }

  function NewEntry(kind: string, req: CreateRequest, o: CreateOracle): Entry {
    Entry(ResolveId(req, o.freshId), DCM_PREFIX + ResolveName(req, o.freshName), kind, FirstStatus(kind), o.now)
  }

  /** The stored state after a completed creation of `e`. */
  function Inserted(cfg: Config, w: World, e: Entry): World {
    Step(cfg, Step(cfg, w, Task(e.id, Insert(e.kcliName, e.kind, e.status, e.createdAt))), Task(e.id, Count(e.kind, 1)))
  }

  function ServeCreate(cfg: Config, s: Systems, kind: string, req: CreateRequest, o: CreateOracle)
    : (Systems, Response)
  {
    var rows := s.world.store.rows;
    var e := NewEntry(kind, req, o);
    if req.clientId != "" && req.clientId in rows then
      if rows[req.clientId].kind != kind then (s, Problem(409))
      else (s, Created(req.clientId, rows[req.clientId].status))
    else if !req.acceptable then (s, Problem(400))
    else if !o.kweb.Accepted? then (s.(calls := s.calls + 1), Problem(FailureCode(o.kweb)))
    else
      var there := WithKweb(s, kind, InKweb(s, kind) + {e.kcliName});
      if o.putOk then (there.(world := Inserted(cfg, s.world, e)), Created(e.id, e.status))
      else if o.rollbackOk then (WithKweb(there, kind, InKweb(there, kind) - {e.kcliName}), Problem(500))
      else (there.(calls := there.calls + 1), Problem(500))
  }

  /** The stored state after a delete request of endpoint `kind` that kweb accepted. */
  function Removed(cfg: Config, w: World, kind: string, id: string, eraseOk: bool): World {
    var told := Step(cfg, w, Task(id, Announce(kind, DELETED)));
    Step(cfg, if eraseOk then Step(cfg, told, Task(id, Erase)) else told, Task(id, Count(kind, -1)))
  }

  function ServeDelete(cfg: Config, s: Systems, kind: string, id: string, o: DeleteOracle): (Systems, Response) {
    var rows := s.world.store.rows;
    if id !in rows then (s, Problem(404))
    else if Leaving(rows[id].status) then (s, NoContent)
    else
      var marked := if o.markOk then Step(cfg, s.world, Task(id, SetStatus(DELETING))) else s.world;
      if o.kweb.Accepted? then
        (WithKweb(s, kind, InKweb(s, kind) - {rows[id].kcliName})
           .(world := Removed(cfg, marked, kind, id, o.eraseOk)), NoContent)
      else
        var back := if o.restoreOk then Step(cfg, marked, Task(id, SetStatus(rows[id].status))) else marked;
        (s.(world := back, calls := s.calls + 1), Problem(if o.kweb.Unreachable? then 502 else 500))
  }

  // ---------- What requests do and answer ----------

  /** From `a` to `b` nothing happened but these notes about the id. */
  ghost predicate OnlyNoted(a: World, b: World, id: string, notes: seq<Note>) {
    && b.pending == a.pending && b.last == a.last && b.held == a.held
    && Notes(b.log, id) == Notes(a.log, id) + notes
    && forall other :: other != id ==> Notes(b.log, other) == Notes(a.log, other)
  }

  /** The kcli name of a new resource: the given name, else the client id cut to 63, else a fresh name. */
  function NameGiven(metadataName: string, clientId: string, freshName: string): string {
    "dcm-" + (if |metadataName| > 0 then metadataName
              else if |clientId| > 63 then clientId[..63]
              else if |clientId| > 0 then clientId
              else freshName)
  }

  /** What a create request of this endpoint must have done and answered. */
  ghost predicate CreateOutcome(s: Systems, t: Systems, kind: string, req: CreateRequest, o: CreateOracle,
                                r: Response)
  {
    var rows, names := s.world.store.rows, s.world.store.names;
    var name := NameGiven(req.metadataName, req.clientId, o.freshName);
    var id := if |req.clientId| > 0 then req.clientId else o.freshId;
    var first := if kind == "vm" then "PROVISIONING" else "CREATING";
    if |req.clientId| > 0 && req.clientId in rows then
      t == s && r == if rows[req.clientId].kind == kind then Created(req.clientId, rows[req.clientId].status)
                     else Problem(409)
    else if !req.acceptable then t == s && r == Problem(400)
    else if o.kweb.Conflict? then t == s.(calls := s.calls + 1) && r == Problem(409)
    else if o.kweb.Unreachable? then t == s.(calls := s.calls + 1) && r == Problem(502)
    else if o.kweb.Failure? then t == s.(calls := s.calls + 1) && r == Problem(500)
    else
      var had, has := if kind == "vm" then s.vms else s.clusters, if kind == "vm" then t.vms else t.clusters;
      && (if kind == "vm" then t.clusters == s.clusters else t.vms == s.vms)
      && (o.putOk ==>
            && r == Created(id, first) && has == had + {name} && t.calls == s.calls + 1
            && t.world.store == StoreState(rows[id := Entry(id, name, kind, first, o.now)], names[name := id])
            && OnlyNoted(s.world, t.world, id, [Stored(first), Counted(kind, 1)])
            && forall k :: Level(t.world, k) == Level(s.world, k) + if k == kind then 1 else 0)
      && (!o.putOk ==>
            && r == Problem(500) && t.world == s.world && t.calls == s.calls + 2
            && has == if o.rollbackOk then had - {name} else had + {name})
  }

  /** What a delete request of this endpoint must have done and answered. */
  ghost predicate DeleteOutcome(s: Systems, t: Systems, kind: string, id: string, o: DeleteOracle, r: Response) {
    var rows := s.world.store.rows;
    if id !in rows then t == s && r == Problem(404)
    else if rows[id].status == "DELETING" || rows[id].status == "DELETED" then t == s && r == NoContent
    else
      var marked := rows[id := rows[id].(status := if o.markOk then "DELETING" else rows[id].status)];
      if o.kweb.Accepted? then
        && r == NoContent && t.calls == s.calls + 1
        && (if kind == "vm" then t.vms == s.vms - {rows[id].kcliName} && t.clusters == s.clusters
            else t.clusters == s.clusters - {rows[id].kcliName} && t.vms == s.vms)
        && t.world.store == (if o.eraseOk then StoreState(rows - {id}, s.world.store.names - {rows[id].kcliName})
                             else s.world.store.(rows := marked))
        && OnlyNoted(s.world, t.world, id, [Announced(kind, "DELETED"), Counted(kind, -1)])
        && forall k :: Level(t.world, k) == Level(s.world, k) - if k == kind then 1 else 0
      else
        && r == Problem(if o.kweb.Unreachable? then 502 else 500)
        && t == s.(calls := s.calls + 1,
                   world := s.world.(store := s.world.store.(rows := if o.restoreOk then rows else marked)))
  }

  lemma NotedTwice(w: World, id: string, a: Note, b: Note)
    ensures var log := w.log + [Record(id, a)] + [Record(id, b)];
            && Notes(log, id) == Notes(w.log, id) + [a, b]
            && forall other :: other != id ==> Notes(log, other) == Notes(w.log, other)
  {
    var one := w.log + [Record(id, a)];
    var two := one + [Record(id, b)];
    assert one[..|w.log|] == w.log && two[..|one|] == one;
    forall other
      ensures Notes(two, other) == Notes(w.log, other) + if other == id then [a, b] else []
    {
      assert Notes(two, other) == Notes(one, other) + if other == id then [b] else [];
      assert Notes(one, other) == Notes(w.log, other) + if other == id then [a] else [];
    }
  }

  lemma InsertedSays(cfg: Config, w: World, e: Entry)
    ensures var t := Inserted(cfg, w, e);
            && t.store == Put(w.store, e) && OnlyNoted(w, t, e.id, [Stored(e.status), Counted(e.kind, 1)])
            && forall k :: Level(t, k) == Level(w, k) + if k == e.kind then 1 else 0
  {
    NotedTwice(w, e.id, Stored(e.status), Counted(e.kind, 1));
    hide Notes;
    assert Entry(e.id, e.kcliName, e.kind, e.status, e.createdAt) == e;
  }

  lemma RemovedSays(cfg: Config, w: World, kind: string, id: string, eraseOk: bool)
    ensures var t := Removed(cfg, w, kind, id, eraseOk);
            && t.store == (if eraseOk then Delete(w.store, id) else w.store)
            && OnlyNoted(w, t, id, [Announced(kind, DELETED), Counted(kind, -1)])
            && forall k :: Level(t, k) == Level(w, k) - if k == kind then 1 else 0
  {
    NotedTwice(w, id, Announced(kind, DELETED), Counted(kind, -1));
    hide Notes;
  }

  lemma CreateAnswers(cfg: Config, s: Systems, kind: string, req: CreateRequest, o: CreateOracle)
    requires KnownKind(kind)
    ensures CreateOutcome(s, ServeCreate(cfg, s, kind, req, o).0, kind, req, o, ServeCreate(cfg, s, kind, req, o).1)
  {
    hide Inserted, OnlyNoted, Level;
    InsertedSays(cfg, s.world, NewEntry(kind, req, o));
    var name := NewEntry(kind, req, o).kcliName;
    assert s.vms + {name} - {name} == s.vms - {name} && s.clusters + {name} - {name} == s.clusters - {name};
  }

  lemma MarkSays(cfg: Config, w: World, id: string, status: string)
    requires id in w.store.rows
    ensures Step(cfg, w, Task(id, SetStatus(status)))
            == w.(store := w.store.(rows := w.store.rows[id := w.store.rows[id].(status := status)]))
  {
  }

  lemma MarkedAndErased(cfg: Config, w: World, kind: string, id: string, o: DeleteOracle)
    requires id in w.store.rows
    ensures var marked := if o.markOk then Step(cfg, w, Task(id, SetStatus(DELETING))) else w;
            var t := Removed(cfg, marked, kind, id, o.eraseOk);
            var rows := w.store.rows;
            && t.store == (if o.eraseOk then StoreState(rows - {id}, w.store.names - {rows[id].kcliName})
                           else w.store.(rows := rows[id := rows[id].(status := if o.markOk then "DELETING"
                                                                              else rows[id].status)]))
            && OnlyNoted(w, t, id, [Announced(kind, "DELETED"), Counted(kind, -1)])
            && forall k :: Level(t, k) == Level(w, k) - if k == kind then 1 else 0
  {
    hide Removed, Notes;
    var rows := w.store.rows;
    var marked := if o.markOk then Step(cfg, w, Task(id, SetStatus(DELETING))) else w;
    MarkSays(cfg, w, id, DELETING);
    RemovedSays(cfg, marked, kind, id, o.eraseOk);
    assert rows[id := rows[id]] == rows && rows[id].(status := rows[id].status) == rows[id];
    assert rows[id := rows[id].(status := DELETING)] - {id} == rows - {id};
  }

  lemma DeleteAnswers(cfg: Config, s: Systems, kind: string, id: string, o: DeleteOracle)
    requires KnownKind(kind)
    ensures DeleteOutcome(s, ServeDelete(cfg, s, kind, id, o).0, kind, id, o, ServeDelete(cfg, s, kind, id, o).1)
  {
    hide Removed, OnlyNoted, Level, Step;
    var w := s.world;
    if id in w.store.rows {
      MarkedAndErased(cfg, w, kind, id, o);
      var e := w.store.rows[id];
      MarkSays(cfg, w, id, DELETING);
      MarkSays(cfg, w, id, e.status);
      var marked := Step(cfg, w, Task(id, SetStatus(DELETING)));
      MarkSays(cfg, marked, id, e.status);
      assert e.(status := DELETING).(status := e.status) == e && e.(status := e.status) == e;
      assert w.store.rows[id := e] == w.store.rows;
      assert w.store.rows[id := e.(status := DELETING)][id := e] == w.store.rows;
    }
  }

  // ---------- Requests as rounds ----------

  lemma StepsOf(cfg: Config, w: World, id: string, acts: seq<Act>, act: Act)
    ensures Exec(cfg, w, TasksOf(id, acts + [act])) == Step(cfg, Exec(cfg, w, TasksOf(id, acts)), Task(id, act))
    ensures Exec(cfg, w, TasksOf(id, [])) == w
  {
    var tasks := TasksOf(id, acts + [act]);
    assert tasks[..|acts|] == TasksOf(id, acts);
  }

  /** A create request that stores its row is a creation round. */
  lemma InsertedIsRound(cfg: Config, w: World, e: Entry)
    ensures Inserted(cfg, w, e) == Exec(cfg, w, RoundTasks(CreateRound(e)))
  {
    hide Step, Exec;
    var a, b := Insert(e.kcliName, e.kind, e.status, e.createdAt), Count(e.kind, 1);
    StepsOf(cfg, w, e.id, [], a);
    StepsOf(cfg, w, e.id, [a], b);
    assert [] + [a] == [a] && [a] + [b] == CreateActs(e);
  }

  /** A delete request that kweb accepts, with its store writes succeeding, is a deletion round. */
  lemma DeleteIsRound(cfg: Config, s: Systems, kind: string, id: string, o: DeleteOracle)
    requires id in s.world.store.rows && !Leaving(s.world.store.rows[id].status)
    requires o.kweb.Accepted? && o.markOk && o.eraseOk
    ensures ServeDelete(cfg, s, kind, id, o).0.world == Exec(cfg, s.world, RoundTasks(DeleteRound(kind, id)))
  {
    hide Step, Exec;
    var w := s.world;
    var a, b, c, d := SetStatus(DELETING), Announce(kind, DELETED), Erase, Count(kind, -1);
    StepsOf(cfg, w, id, [], a);
    StepsOf(cfg, w, id, [a], b);
    StepsOf(cfg, w, id, [a] + [b], c);
    StepsOf(cfg, w, id, [a] + [b] + [c], d);
    assert [] + [a] == [a] && [a] + [b] + [c] + [d] == DeleteActs(kind);
  }

  // ---------- One request ----------

  /**
   Repeating a successful create, whatever else the request holds and kweb would say, is free and answers
   with the same id and status.
  */
  lemma CreateIsIdempotent(cfg: Config, s: Systems, kind: string, req: CreateRequest, o: CreateOracle,
                           again: CreateRequest, o': CreateOracle)
    requires req.clientId != "" && again.clientId == req.clientId
    requires ServeCreate(cfg, s, kind, req, o).1.Created?
    ensures var (t, r) := ServeCreate(cfg, s, kind, req, o);
            ServeCreate(cfg, t, kind, again, o') == (t, r)
  {
  }

  lemma InsertedRow(cfg: Config, w: World, e: Entry)
    ensures Inserted(cfg, w, e).store == Put(w.store, e)
    ensures forall k :: Level(Inserted(cfg, w, e), k) == Level(w, k) + if k == e.kind then 1 else 0
  {
  }

  /**
   A create that is not answered with Created leaves the store alone, and leaves kweb alone except in
   one case: kweb accepted, the row could not be stored, and the rollback did not put kweb's names back.
   The rollback puts them back exactly when it succeeds on a name kweb did not have before, or fails on
   one it had.
  */
  lemma FailedCreateLeavesBoth(cfg: Config, s: Systems, kind: string, req: CreateRequest, o: CreateOracle)
    requires ServeCreate(cfg, s, kind, req, o).1.Problem?
    ensures var (t, _) := ServeCreate(cfg, s, kind, req, o);
            && t.world == s.world
            && (t.vms == s.vms && t.clusters == s.clusters
                <==> (req.clientId != "" && req.clientId in s.world.store.rows) || !req.acceptable || !o.kweb.Accepted?
                     || o.rollbackOk == (NewEntry(kind, req, o).kcliName !in InKweb(s, kind)))
  {
  }

  /** A refused delete leaves kweb alone and, exactly when the mark was undone or never made, the whole state. */
  lemma FailedDeleteLeavesBoth(cfg: Config, s: Systems, kind: string, id: string, o: DeleteOracle)
    requires ServeDelete(cfg, s, kind, id, o).1.Problem?
    ensures var (t, _) := ServeDelete(cfg, s, kind, id, o);
            && t.vms == s.vms && t.clusters == s.clusters
            && (t.world == s.world <==> id !in s.world.store.rows || !o.markOk || o.restoreOk)
  {
  }

  /** Creating a fresh resource and deleting it again restores kweb, the rows, the index and the gauges. */
  lemma CreateThenDelete(cfg: Config, s: Systems, kind: string, req: CreateRequest, o: CreateOracle, d: DeleteOracle)
    requires kind == VM || kind == CLUSTER
    requires NewEntry(kind, req, o).id !in s.world.store.rows
    requires NewEntry(kind, req, o).kcliName !in InKweb(s, kind)
    requires NewEntry(kind, req, o).kcliName !in s.world.store.names
    requires ServeCreate(cfg, s, kind, req, o).1.Created?
    requires d.kweb.Accepted? && d.eraseOk
    ensures var (t, created) := ServeCreate(cfg, s, kind, req, o);
            var (u, r) := ServeDelete(cfg, t, kind, created.id, d);
            && r == NoContent && u.vms == s.vms && u.clusters == s.clusters
            && u.world.store == s.world.store
            && forall k :: Level(u.world, k) == Level(s.world, k)
  {
    hide Inserted, Removed, Level;
    var e := NewEntry(kind, req, o);
    var (t, created) := ServeCreate(cfg, s, kind, req, o);
    assert created.id == e.id;
    InsertedRow(cfg, s.world, e);
    assert t.world.store.rows[e.id] == e && !Leaving(PROVISIONING) && !Leaving(CREATING);
    var marked := if d.markOk then Step(cfg, t.world, Task(e.id, SetStatus(DELETING))) else t.world;
    RemovedStore(cfg, marked, kind, e.id);
    MarkKeepsLevels(cfg, t.world, e.id);
    assert marked.store.rows == s.world.store.rows[e.id := marked.store.rows[e.id]];
    assert s.world.store.rows[e.id := marked.store.rows[e.id]] - {e.id} == s.world.store.rows;
    assert s.world.store.names[e.kcliName := e.id] - {e.kcliName} == s.world.store.names;
    assert InKweb(s, kind) + {e.kcliName} - {e.kcliName} == InKweb(s, kind);
  }

  lemma MarkKeepsLevels(cfg: Config, w: World, id: string)
    ensures forall k :: Level(Step(cfg, w, Task(id, SetStatus(DELETING))), k) == Level(w, k)
  {
  }

  lemma RemovedStore(cfg: Config, w: World, kind: string, id: string)
    ensures Removed(cfg, w, kind, id, true).store == Delete(w.store, id)
    ensures Removed(cfg, w, kind, id, false).store == w.store
    ensures forall k, erase :: Level(Removed(cfg, w, kind, id, erase), k) == Level(w, k) - if k == kind then 1 else 0
  {
  }

  /**
   In every interleaving of every kind of step: an id with no row gets one only by a Put, and between a
   Put and a Delete a row's name, type and creation time never change.
  */
  lemma {:induction false} IdentityFixed(cfg: Config, w: World, tasks: seq<Task>, id: string)
    requires forall i :: 0 <= i < |tasks| && tasks[i].act.Insert? ==> tasks[i].id != id
    ensures var rows, rows' := w.store.rows, Exec(cfg, w, tasks).store.rows;
            id in rows' ==> id in rows && rows'[id] == rows[id].(status := rows'[id].status)
  {
    hide Step, StepSlice, Put, Delete, UpdateStatus;
    if tasks != [] {
      var init, task := tasks[..|tasks| - 1], tasks[|tasks| - 1];
      IdentityFixed(cfg, w, init, id);
      var mid := Exec(cfg, w, init);
      StepLocal(cfg, mid, task, id);
      SliceParts(mid, id);
      SliceParts(Step(cfg, mid, task), id);
      if task.id == id {
        SliceIdentity(cfg, SliceOf(mid, id), task.act);
      }
    }
  }

  lemma SliceIdentity(cfg: Config, s: Slice, act: Act)
    requires !act.Insert?
    ensures var row' := StepSlice(cfg, s, act).row;
            row'.Some? ==> s.row.Some? && row'.value == s.row.value.(status := row'.value.status)
  {
  }
}
