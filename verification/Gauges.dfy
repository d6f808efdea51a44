/** The managed-resources gauges against the store, over serialized requests and polls. */
module Gauges {
  import opened Resource
  import opened StoreModel
  import opened Machine
  import opened Poll
  import opened Rounds
  import opened Reconcile
  import opened Service

  ghost predicate KnownRows(rows: map<string, Entry>) {
    forall id :: id in rows ==> KnownKind(rows[id].kind)
  }

  /** The two gauges together count the stored rows. */
  ghost predicate TotalExact(w: World) {
    Level(w, VM) + Level(w, CLUSTER) == |w.store.rows|
  }

  /** Each gauge counts the rows of its own kind. */
  ghost predicate KindsExact(w: World) {
    Level(w, VM) == |OfKind(w.store.rows, VM)| && Level(w, CLUSTER) == |OfKind(w.store.rows, CLUSTER)|
  }

  // ---------- Counting rows ----------

  lemma KindsPartition(rows: map<string, Entry>)
    requires KnownRows(rows)
    ensures |rows| == |OfKind(rows, VM)| + |OfKind(rows, CLUSTER)|
  {
    var a, b := OfKind(rows, VM), OfKind(rows, CLUSTER);
    assert VM != CLUSTER;
    assert a.Keys !! b.Keys && rows.Keys == a.Keys + b.Keys;
    assert |rows.Keys| == |a.Keys| + |b.Keys|;
  }

  lemma AddRow(rows: map<string, Entry>, e: Entry, kind: string)
    requires e.id !in rows
    ensures |rows[e.id := e]| == |rows| + 1
    ensures |OfKind(rows[e.id := e], kind)| == |OfKind(rows, kind)| + if e.kind == kind then 1 else 0
  {
    var after := OfKind(rows[e.id := e], kind);
    if e.kind == kind {
      assert after == OfKind(rows, kind)[e.id := e];
    } else {
      assert after == OfKind(rows, kind);
    }
  }

  lemma DropRow(rows: map<string, Entry>, id: string, kind: string)
    requires id in rows
    ensures |rows - {id}| == |rows| - 1
    ensures |OfKind(rows - {id}, kind)| == |OfKind(rows, kind)| - if rows[id].kind == kind then 1 else 0
  {
    var after := OfKind(rows - {id}, kind);
    assert (rows - {id}).Keys == rows.Keys - {id};
    assert |(rows - {id}).Keys| == |rows.Keys| - 1;
    if rows[id].kind == kind {
      assert after.Keys == OfKind(rows, kind).Keys - {id};
      assert |after.Keys| == |OfKind(rows, kind).Keys| - 1;
    } else {
      assert after == OfKind(rows, kind);
    }
  }

  // ---------- A poll ----------

  function RemovedIds(cfg: Config, entries: seq<Entry>, view: View): set<string> {
    if entries == [] then {}
    else
      var e := entries[|entries| - 1];
      RemovedIds(cfg, entries[..|entries| - 1], view) + if Decide(cfg, e, view) == Remove then {e.id} else {}
  }

  lemma {:induction false} RemovedIdsMean(cfg: Config, entries: seq<Entry>, view: View, id: string)
    ensures id in RemovedIds(cfg, entries, view)
            <==> exists i :: 0 <= i < |entries| && entries[i].id == id && Decide(cfg, entries[i], view) == Remove
  {
    if entries != [] {
      var init := entries[..|entries| - 1];
      RemovedIdsMean(cfg, init, view, id);
      if id in RemovedIds(cfg, init, view) {
        var i :| 0 <= i < |init| && init[i].id == id && Decide(cfg, init[i], view) == Remove;
        assert entries[i] == init[i];
      }
      if i :| 0 <= i < |init| && entries[i].id == id && Decide(cfg, entries[i], view) == Remove {
        assert init[i] == entries[i];
      }
    }
  }

  lemma SingleDelta(t: Task, kind: string)
    ensures DeltaSum([t], kind) == Delta(t.act, kind)
  {
  }

  lemma CarryDelta(id: string, kind: string, verdict: Verdict, tick: Tick, gauge: string)
    ensures DeltaSum(TasksOf(id, Carry(kind, verdict, tick)), gauge)
            == if verdict.Remove? && kind == gauge then -1 else 0
  {
    var ts := TasksOf(id, Carry(kind, verdict, tick));
    if verdict.Remove? {
      assert ts == [ts[0]] + [ts[1]] + [ts[2]] + [ts[3]] + [ts[4]];
      forall i | 0 <= i < 5
        ensures DeltaSum([ts[i]], gauge) == Delta(ts[i].act, gauge)
      {
        SingleDelta(ts[i], gauge);
      }
      DeltaSumAppend([ts[0]], [ts[1]], gauge);
      DeltaSumAppend([ts[0]] + [ts[1]], [ts[2]], gauge);
      DeltaSumAppend([ts[0]] + [ts[1]] + [ts[2]], [ts[3]], gauge);
      DeltaSumAppend([ts[0]] + [ts[1]] + [ts[2]] + [ts[3]], [ts[4]], gauge);
    } else if verdict.Become? {
      assert ts == [ts[0]] + [ts[1]] + [ts[2]];
      forall i | 0 <= i < 3
        ensures DeltaSum([ts[i]], gauge) == Delta(ts[i].act, gauge)
      {
        SingleDelta(ts[i], gauge);
      }
      DeltaSumAppend([ts[0]], [ts[1]], gauge);
      DeltaSumAppend([ts[0]] + [ts[1]], [ts[2]], gauge);
    }
  }

  /** A pass over rows of one kind lowers that kind's gauge by the number of rows it removes. */
  lemma {:induction false} PassDelta(cfg: Config, entries: seq<Entry>, view: View, kind: string, gauge: string)
    requires forall i :: 0 <= i < |entries| ==> entries[i].kind == kind
    requires forall i, j :: 0 <= i < j < |entries| ==> entries[i].id != entries[j].id
    ensures DeltaSum(PassTasks(cfg, entries, view), gauge)
            == if kind == gauge then -|RemovedIds(cfg, entries, view)| else 0
  {
    hide Decide;
    if entries != [] {
      var init, e := entries[..|entries| - 1], entries[|entries| - 1];
      PassDelta(cfg, init, view, kind, gauge);
      DeltaSumAppend(PassTasks(cfg, init, view), TasksOf(e.id, RowActs(cfg, e, view)), gauge);
      CarryDelta(e.id, e.kind, Decide(cfg, e, view), view.tick(e.id), gauge);
      RemovedIdsMean(cfg, init, view, e.id);
    }
  }

  lemma {:induction false} NoDelta(tasks: seq<Task>, gauge: string)
    requires forall i :: 0 <= i < |tasks| ==> !tasks[i].act.Count?
    ensures DeltaSum(tasks, gauge) == 0
  {
    if tasks != [] {
      NoDelta(tasks[..|tasks| - 1], gauge);
    }
  }

  lemma RemoveIsNoTarget(cfg: Config, e: Entry, view: View)
    ensures Decide(cfg, e, view) == Remove <==> Target(cfg, e, view).None?
    ensures Target(cfg, e, view).Some? ==> Target(cfg, e, view).value.kind == e.kind
  {
  }

  /** `entries` is what the pass of `kind` works on: its rows, or nothing when the pass is skipped. */
  ghost predicate PassRows(entries: seq<Entry>, rows: map<string, Entry>, view: View, kind: string) {
    if (if kind == VM then view.vms.Some? else view.clusters.Some?) then Lists(entries, OfKind(rows, kind))
    else entries == []
  }

  lemma RemovedHasNoTarget(cfg: Config, rows: map<string, Entry>, view: View, kind: string, entries: seq<Entry>,
                           id: string)
    requires Keyed(rows) && KnownKind(kind) && PassRows(entries, rows, view, kind)
    ensures id in RemovedIds(cfg, entries, view)
            <==> id in rows && rows[id].kind == kind && Target(cfg, rows[id], view).None?
  {
    hide Decide, Target;
    assert VM != CLUSTER;
    RemovedIdsMean(cfg, entries, view, id);
    if id in rows {
      RemoveIsNoTarget(cfg, rows[id], view);
      SkippedKeepsTarget(cfg, rows[id], view);
      if rows[id].kind == kind && entries != [] {
        assert id in OfKind(rows, kind) && rows[id] in entries;
      }
    }
  }

  lemma SkippedKeepsTarget(cfg: Config, e: Entry, view: View)
    ensures e.kind == VM && view.vms.None? ==> Target(cfg, e, view) == Some(e)
    ensures e.kind == CLUSTER && view.clusters.None? ==> Target(cfg, e, view) == Some(e)
  {
  }

  /** What a pass removes is what the reconciled rows of its kind lack. */
  lemma ReconciledKind(cfg: Config, rows: map<string, Entry>, view: View, kind: string, entries: seq<Entry>)
    requires Keyed(rows) && KnownKind(kind) && PassRows(entries, rows, view, kind)
    ensures |OfKind(Reconciled(cfg, rows, view), kind)| == |OfKind(rows, kind)| - |RemovedIds(cfg, entries, view)|
  {
    hide Decide, Target, RemovedIds, PassRows, OfKind, Reconciled;
    var before, after := OfKind(rows, kind), OfKind(Reconciled(cfg, rows, view), kind);
    var removed := RemovedIds(cfg, entries, view);
    forall id
      ensures id in removed ==> id in before
      ensures id in after <==> id in before && id !in removed
    {
      ReconciledAt(cfg, rows, view, kind, entries, id);
    }
    SizeWithout(before, after, removed);
  }

  lemma ReconciledAt(cfg: Config, rows: map<string, Entry>, view: View, kind: string, entries: seq<Entry>, id: string)
    requires Keyed(rows) && KnownKind(kind) && PassRows(entries, rows, view, kind)
    ensures id in RemovedIds(cfg, entries, view) ==> id in OfKind(rows, kind)
    ensures id in OfKind(Reconciled(cfg, rows, view), kind)
            <==> id in OfKind(rows, kind) && id !in RemovedIds(cfg, entries, view)
  {
    hide Decide, Target, RemovedIds, PassRows;
    RemovedHasNoTarget(cfg, rows, view, kind, entries, id);
    if id in rows {
      RemoveIsNoTarget(cfg, rows[id], view);
    }
  }

  lemma SizeWithout(before: map<string, Entry>, after: map<string, Entry>, removed: set<string>)
    requires forall id :: id in removed ==> id in before
    requires forall id :: id in after <==> id in before && id !in removed
    ensures |after| == |before| - |removed|
  {
    assert after.Keys == before.Keys - removed && removed <= before.Keys;
    assert |after.Keys| == |before.Keys| - |removed|;
  }

  /** A poll lowers each gauge by exactly the rows of that kind it removes. */
  lemma PollGauges(cfg: Config, w: World, view: View, order: Order, kind: string)
    requires AtRest(w) && LegalPoll(cfg, w, view, order) && KnownKind(kind)
    ensures var w' := Exec(cfg, w, PollTasks(view, order));
            Level(w, kind) - Level(w', kind) == |OfKind(w.store.rows, kind)| - |OfKind(w'.store.rows, kind)|
  {
    hide Target, Decide, PassTasks, Shuffle, Mine, FlushTasks, DeltaSum, DueForFlush, Exec, Level, Lists, OfKind,
      RemovedIds;
    var a, b := PassTasks(cfg, order.vmRows, view), PassTasks(cfg, order.clusterRows, view);
    var flush := FlushTasks(order.flushIds, view);
    PollRefinesReconcile(cfg, w, view, order);
    ExecLevel(cfg, w, PollTasks(view, order), kind);
    DeltaSumAppend(order.body, flush, kind);
    FlushCountsNothing(order.flushIds, view, kind);
    PassesDisjoint(cfg, w, view, order);
    forall id
      ensures Mine(order.body, id) == Mine(a + b, id)
    {
      ShuffleProjects(a, b, order.body, id);
      MineAppend(a, b, id);
    }
    ProjectionsFixGauges(order.body, a + b, kind);
    DeltaSumAppend(a, b, kind);
    ListedKind(order.vmRows, w.store.rows, VM);
    ListedKind(order.clusterRows, w.store.rows, CLUSTER);
    assert VM != CLUSTER;
    PassDelta(cfg, order.vmRows, view, VM, kind);
    PassDelta(cfg, order.clusterRows, view, CLUSTER, kind);
    assert PassRows(order.vmRows, w.store.rows, view, VM) && PassRows(order.clusterRows, w.store.rows, view, CLUSTER);
    ReconciledKind(cfg, w.store.rows, view, kind, if kind == VM then order.vmRows else order.clusterRows);
  }

  lemma FlushCountsNothing(ids: seq<string>, view: View, gauge: string)
    ensures DeltaSum(FlushTasks(ids, view), gauge) == 0
  {
    NoDelta(FlushTasks(ids, view), gauge);
  }

  lemma ListedKind(entries: seq<Entry>, rows: map<string, Entry>, kind: string)
    ensures Lists(entries, OfKind(rows, kind)) ==>
              && (forall i :: 0 <= i < |entries| ==> entries[i].kind == kind)
              && (forall i, j :: 0 <= i < j < |entries| ==> entries[i].id != entries[j].id)
  {
  }

  lemma ReconciledKnown(cfg: Config, rows: map<string, Entry>, view: View)
    requires KnownRows(rows)
    ensures KnownRows(Reconciled(cfg, rows, view))
  {
  }

  // ---------- Serialized runs ----------

  datatype Call =
    | CreateCall(kind: string, req: CreateRequest, create: CreateOracle)
    | DeleteCall(kind: string, id: string, delete: DeleteOracle)
    | PollCall(view: View, order: Order)

  function Serve(cfg: Config, s: Systems, call: Call): Systems {
    match call
    case CreateCall(kind, req, o) => ServeCreate(cfg, s, kind, req, o).0
    case DeleteCall(kind, id, o) => ServeDelete(cfg, s, kind, id, o).0
    case PollCall(view, order) => s.(world := Exec(cfg, s.world, PollTasks(view, order)))
  }

  function ServeAll(cfg: Config, s: Systems, calls: seq<Call>): Systems {
    if calls == [] then s else Serve(cfg, ServeAll(cfg, s, calls[..|calls| - 1]), calls[|calls| - 1])
  }

  /** Generated ids are fresh, polls are possible ones, and deleting a row from the store succeeds. */
  ghost predicate LegalCall(cfg: Config, s: Systems, call: Call) {
    match call
    case CreateCall(kind, req, o) => KnownKind(kind) && (req.clientId == "" ==> o.freshId !in s.world.store.rows)
    case DeleteCall(kind, id, o) => KnownKind(kind) && o.eraseOk
    case PollCall(view, order) => LegalPoll(cfg, s.world, view, order)
  }

  ghost predicate LegalCalls(cfg: Config, s: Systems, calls: seq<Call>) {
    calls == [] ||
    (var init := calls[..|calls| - 1];
     LegalCalls(cfg, s, init) && LegalCall(cfg, ServeAll(cfg, s, init), calls[|calls| - 1]))
  }

  predicate CreatesId(call: Call, id: string) {
    call.CreateCall? && call.req.clientId == id
  }

  /** Every create with this client id finds the id stored. */
  ghost predicate RetriesOnly(cfg: Config, s: Systems, calls: seq<Call>, id: string) {
    forall k :: 0 <= k < |calls| && CreatesId(calls[k], id) ==> id in ServeAll(cfg, s, calls[..k]).world.store.rows
  }

  /** The calls other than creates with this client id. */
  function WithoutCreates(calls: seq<Call>, id: string): seq<Call> {
    if calls == [] then []
    else
      var init, call := calls[..|calls| - 1], calls[|calls| - 1];
      WithoutCreates(init, id) + if CreatesId(call, id) then [] else [call]
  }

  /** What a retry is answered: the stored row's status, or a conflict at the other kind's endpoint. */
  function RetryAnswer(s: Systems, call: Call, id: string): Response
    requires call.CreateCall? && id in s.world.store.rows
  {
    if s.world.store.rows[id].kind == call.kind then Created(id, s.world.store.rows[id].status) else Problem(409)
  }

  lemma RetryChangesNothing(cfg: Config, s: Systems, call: Call, id: string)
    requires id != "" && CreatesId(call, id) && id in s.world.store.rows
    ensures ServeCreate(cfg, s, call.kind, call.req, call.create) == (s, RetryAnswer(s, call, id))
  {
  }

  lemma RetriesPrefix(cfg: Config, s: Systems, calls: seq<Call>, id: string)
    requires RetriesOnly(cfg, s, calls, id) && calls != []
    ensures RetriesOnly(cfg, s, calls[..|calls| - 1], id)
  {
    hide ServeAll;
    var init := calls[..|calls| - 1];
    forall k | 0 <= k < |init| && CreatesId(init[k], id)
      ensures id in ServeAll(cfg, s, init[..k]).world.store.rows
    {
      assert init[..k] == calls[..k] && init[k] == calls[k];
    }
  }

  /**
   Retries are free: in any run of requests and polls, creates with a client id that is live at the time,
   however many and to whichever endpoint, could be left out without changing anything, neither the store
   nor what kweb has nor how often it was called; and each is answered from the stored row.
  */
  lemma {:induction false} RetriesAreFree(cfg: Config, s: Systems, calls: seq<Call>, id: string)
    requires id != "" && RetriesOnly(cfg, s, calls, id)
    ensures ServeAll(cfg, s, calls) == ServeAll(cfg, s, WithoutCreates(calls, id))
    ensures forall k :: 0 <= k < |calls| && CreatesId(calls[k], id) ==>
              var before, call := ServeAll(cfg, s, calls[..k]), calls[k];
              ServeCreate(cfg, before, call.kind, call.req, call.create).1 == RetryAnswer(before, call, id)
  {
    hide ServeCreate, RetryAnswer, RetriesOnly;
    forall k | 0 <= k < |calls| && CreatesId(calls[k], id)
      ensures id in ServeAll(cfg, s, calls[..k]).world.store.rows
      ensures var before, call := ServeAll(cfg, s, calls[..k]), calls[k];
              ServeCreate(cfg, before, call.kind, call.req, call.create) == (before, RetryAnswer(before, call, id))
    {
      RetryIsLive(cfg, s, calls, id, k);
      RetryChangesNothing(cfg, ServeAll(cfg, s, calls[..k]), calls[k], id);
    }
    if calls != [] {
      var init, call := calls[..|calls| - 1], calls[|calls| - 1];
      RetriesPrefix(cfg, s, calls, id);
      RetriesAreFree(cfg, s, init, id);
      if CreatesId(call, id) {
        assert calls[|calls| - 1] == call;
        assert WithoutCreates(calls, id) == WithoutCreates(init, id);
      } else {
        hide Serve;
        assert WithoutCreates(calls, id)[..|WithoutCreates(init, id)|] == WithoutCreates(init, id);
      }
    }
  }

  lemma RetryIsLive(cfg: Config, s: Systems, calls: seq<Call>, id: string, k: int)
    requires RetriesOnly(cfg, s, calls, id) && 0 <= k < |calls| && CreatesId(calls[k], id)
    ensures id in ServeAll(cfg, s, calls[..k]).world.store.rows
  {
  }

  /** A delete goes to the endpoint of the row's own kind. */
  ghost predicate Matching(s: Systems, call: Call) {
    call.DeleteCall? && call.id in s.world.store.rows ==> s.world.store.rows[call.id].kind == call.kind
  }

  ghost predicate AllMatching(cfg: Config, s: Systems, calls: seq<Call>) {
    calls == [] ||
    (var init := calls[..|calls| - 1];
     AllMatching(cfg, s, init) && Matching(ServeAll(cfg, s, init), calls[|calls| - 1]))
  }

  ghost predicate Sane(w: World) {
    AtRest(w) && KnownRows(w.store.rows)
  }

  lemma CreateConserves(cfg: Config, s: Systems, kind: string, req: CreateRequest, o: CreateOracle)
    requires Sane(s.world) && LegalCall(cfg, s, CreateCall(kind, req, o))
    ensures var w, w' := s.world, ServeCreate(cfg, s, kind, req, o).0.world;
            && Sane(w')
            && (TotalExact(w) ==> TotalExact(w')) && (KindsExact(w) ==> KindsExact(w'))
  {
    hide Sane, TotalExact, KindsExact, Inserted;
    if ServeCreate(cfg, s, kind, req, o).0.world != s.world {
      InsertionConserves(cfg, s.world, NewEntry(kind, req, o));
    }
  }

  lemma InsertionConserves(cfg: Config, w: World, e: Entry)
    requires Sane(w) && KnownKind(e.kind) && e.id !in w.store.rows
    ensures var w' := Inserted(cfg, w, e);
            && Sane(w')
            && (TotalExact(w) ==> TotalExact(w')) && (KindsExact(w) ==> KindsExact(w'))
  {
    hide OfKind, Level;
    assert VM != CLUSTER;
    InsertedRow(cfg, w, e);
    InsertedHeld(cfg, w, e);
    AddRow(w.store.rows, e, VM);
    AddRow(w.store.rows, e, CLUSTER);
    hide Inserted;
  }

  lemma InsertedHeld(cfg: Config, w: World, e: Entry)
    ensures Inserted(cfg, w, e).held == w.held
  {
  }

  /** A successful delete keeps the total, and keeps both gauges exact exactly when its endpoint matches the row. */
  lemma DeleteConserves(cfg: Config, s: Systems, kind: string, id: string, o: DeleteOracle)
    requires Sane(s.world) && LegalCall(cfg, s, DeleteCall(kind, id, o))
    ensures var w, w' := s.world, ServeDelete(cfg, s, kind, id, o).0.world;
            && Sane(w')
            && (TotalExact(w) ==> TotalExact(w'))
            && (KindsExact(w) ==>
                  (KindsExact(w') <==> id !in w.store.rows || Leaving(w.store.rows[id].status) || !o.kweb.Accepted?
                                       || w.store.rows[id].kind == kind))
  {
    hide KindsExact, TotalExact, Sane;
    var w := s.world;
    if id in w.store.rows && !Leaving(w.store.rows[id].status) {
      var marked := if o.markOk then Step(cfg, w, Task(id, SetStatus(DELETING))) else w;
      MarkConserves(cfg, w, id, DELETING);
      if o.kweb.Accepted? {
        RemovalConserves(cfg, marked, kind, id);
      } else {
        MarkConserves(cfg, marked, id, w.store.rows[id].status);
      }
    }
  }

  /** Rewriting a status moves no count. */
  lemma MarkConserves(cfg: Config, w: World, id: string, status: string)
    requires Sane(w) && id in w.store.rows
    ensures var w' := Step(cfg, w, Task(id, SetStatus(status)));
            && Sane(w') && (TotalExact(w) <==> TotalExact(w')) && (KindsExact(w) <==> KindsExact(w'))
            && id in w'.store.rows && w'.store.rows[id].kind == w.store.rows[id].kind
  {
    hide OfKind, UpdateStatus;
    MarkKeepsCounts(w.store, id, status);
    var w' := Step(cfg, w, Task(id, SetStatus(status)));
    assert w' == w.(store := UpdateStatus(w.store, id, status));
    assert KnownRows(w'.store.rows);
  }

  lemma RemovalConserves(cfg: Config, w: World, kind: string, id: string)
    requires Sane(w) && KnownKind(kind) && id in w.store.rows
    ensures var w' := Removed(cfg, w, kind, id, true);
            && Sane(w') && (TotalExact(w) ==> TotalExact(w'))
            && (KindsExact(w) ==> (KindsExact(w') <==> w.store.rows[id].kind == kind))
  {
    hide OfKind, Level;
    assert VM != CLUSTER;
    RemovedSane(cfg, w, kind, id);
    RemovedStore(cfg, w, kind, id);
    DropRow(w.store.rows, id, VM);
    DropRow(w.store.rows, id, CLUSTER);
    hide Removed;
    assert KnownKind(w.store.rows[id].kind);
  }

  lemma RemovedSane(cfg: Config, w: World, kind: string, id: string)
    requires Sane(w)
    ensures Sane(Removed(cfg, w, kind, id, true))
  {
    hide Level;
  }

  lemma MarkKeepsCounts(s: StoreState, id: string, status: string)
    requires id in s.rows
    ensures var t := UpdateStatus(s, id, status);
            && t.rows.Keys == s.rows.Keys && |t.rows| == |s.rows|
            && |OfKind(t.rows, VM)| == |OfKind(s.rows, VM)| && |OfKind(t.rows, CLUSTER)| == |OfKind(s.rows, CLUSTER)|
            && forall i :: i in s.rows ==> t.rows[i].kind == s.rows[i].kind && t.rows[i].id == s.rows[i].id
  {
    hide OfKind;
    var t := UpdateStatus(s, id, status);
    assert t.rows.Keys == s.rows.Keys;
    assert |t.rows.Keys| == |s.rows.Keys|;
    SameKindsSameCount(s.rows, t.rows, VM);
    SameKindsSameCount(s.rows, t.rows, CLUSTER);
  }

  lemma SameKindsSameCount(a: map<string, Entry>, b: map<string, Entry>, kind: string)
    requires a.Keys == b.Keys && forall id :: id in a ==> a[id].kind == b[id].kind
    ensures |OfKind(a, kind)| == |OfKind(b, kind)|
  {
    assert OfKind(a, kind).Keys == OfKind(b, kind).Keys;
    assert |OfKind(a, kind).Keys| == |OfKind(b, kind).Keys|;
  }

  lemma PollConserves(cfg: Config, w: World, view: View, order: Order)
    requires Sane(w) && LegalPoll(cfg, w, view, order)
    ensures var w' := Exec(cfg, w, PollTasks(view, order));
            && Sane(w')
            && (TotalExact(w) ==> TotalExact(w')) && (KindsExact(w) ==> KindsExact(w'))
  {
    hide Reconciled, LegalPoll, PollTasks, OfKind;
    PollKeepsShape(cfg, w, view, order);
    PollRefinesReconcile(cfg, w, view, order);
    ReconciledKnown(cfg, w.store.rows, view);
    PollGauges(cfg, w, view, order, VM);
    PollGauges(cfg, w, view, order, CLUSTER);
    KindsPartition(w.store.rows);
    KindsPartition(Exec(cfg, w, PollTasks(view, order)).store.rows);
  }

  /**
   Gauge conservation: over every serialized run of requests and polls the two gauges together equal
   the number of stored rows, and each equals its own kind's count when deletes use the matching endpoint.
  */
  lemma {:induction false} GaugesConserved(cfg: Config, s: Systems, calls: seq<Call>)
    requires Sane(s.world) && LegalCalls(cfg, s, calls)
    ensures var w' := ServeAll(cfg, s, calls).world;
            && Sane(w')
            && (TotalExact(s.world) ==> TotalExact(w'))
            && (KindsExact(s.world) && AllMatching(cfg, s, calls) ==> KindsExact(w'))
  {
    hide Sane, TotalExact, KindsExact, ServeCreate, ServeDelete;
    if calls != [] {
      var init, call := calls[..|calls| - 1], calls[|calls| - 1];
      GaugesConserved(cfg, s, init);
      var t := ServeAll(cfg, s, init);
      match call {
        case CreateCall(kind, req, o) => CreateConserves(cfg, t, kind, req, o);
        case DeleteCall(kind, id, o) => DeleteConserves(cfg, t, kind, id, o);
        case PollCall(view, order) => PollConserves(cfg, t.world, view, order);
      }
    }
  }

  /** The delete, if any, is of a row, at work and not leaving, that kweb then deletes. */
  predicate Effective(s: Systems, call: Call) {
    && call.DeleteCall? && call.id in s.world.store.rows
    && !Leaving(s.world.store.rows[call.id].status) && call.delete.kweb.Accepted?
  }

  lemma CallKeepsKinds(cfg: Config, s: Systems, call: Call)
    requires Sane(s.world) && LegalCall(cfg, s, call)
    ensures Sane(Serve(cfg, s, call).world)
    ensures KindsExact(s.world) ==>
              (KindsExact(Serve(cfg, s, call).world) <==> (Effective(s, call) ==> Matching(s, call)))
  {
    hide Sane, TotalExact, KindsExact, ServeCreate, ServeDelete;
    match call {
      case CreateCall(kind, req, o) => CreateConserves(cfg, s, kind, req, o);
      case DeleteCall(kind, id, o) => DeleteConserves(cfg, s, kind, id, o);
      case PollCall(view, order) => PollConserves(cfg, s.world, view, order);
    }
  }

  /**
   Each gauge counts its own type's rows after every call of a run if and only if every delete that took
   effect went to the endpoint of its row's type.
  */
  lemma {:induction false} KindsExactIff(cfg: Config, s: Systems, calls: seq<Call>)
    requires Sane(s.world) && KindsExact(s.world) && LegalCalls(cfg, s, calls)
    ensures Sane(ServeAll(cfg, s, calls).world)
    ensures KindsThroughout(cfg, s, calls) <==> MatchingThroughout(cfg, s, calls)
  {
    hide Sane, KindsExact, Serve, LegalCall, Effective, Matching;
    if calls != [] {
      var init := calls[..|calls| - 1];
      KindsExactIff(cfg, s, init);
      CallKeepsKinds(cfg, ServeAll(cfg, s, init), calls[|calls| - 1]);
      if KindsThroughout(cfg, s, init) {
        KindsNow(cfg, s, init);
      }
    }
  }

  ghost predicate KindsThroughout(cfg: Config, s: Systems, calls: seq<Call>) {
    KindsExact(ServeAll(cfg, s, calls).world) && (calls == [] || KindsThroughout(cfg, s, calls[..|calls| - 1]))
  }

  ghost predicate MatchingThroughout(cfg: Config, s: Systems, calls: seq<Call>) {
    calls == [] ||
    (var init, call := calls[..|calls| - 1], calls[|calls| - 1];
     && MatchingThroughout(cfg, s, init)
     && (Effective(ServeAll(cfg, s, init), call) ==> Matching(ServeAll(cfg, s, init), call)))
  }

  lemma KindsNow(cfg: Config, s: Systems, calls: seq<Call>)
    requires KindsThroughout(cfg, s, calls)
    ensures KindsExact(ServeAll(cfg, s, calls).world)
  {
  }
}
