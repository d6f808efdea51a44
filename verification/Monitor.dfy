/** The status monitor: polling, debouncing and orphan detection over its own mutable state. */
module Monitor {
  import opened Resource
  import opened StatusMap
  import opened StoreModel
  import opened Machine
  import opened Poll
  import opened Orphans
  import Reconcile
  import Reporting
  import Rounds
  import EntryJson
  import Store

  datatype ClusterInfo = ClusterInfo(name: string, clusterType: string, vms: string)

  /** A kweb listing as the client returns it: an error, a nil slice, or items. */
  datatype Reply<+T> = Failed | NilSlice | Items(items: seq<T>)

  function StatusByName(vms: seq<VmInfo>): map<string, string> {
    if vms == [] then map[]
    else
      var vm := vms[|vms| - 1];
      StatusByName(vms[..|vms| - 1])[vm.name := vm.status]
  }

  function NodesByName(clusters: seq<ClusterInfo>): map<string, bool> {
    if clusters == [] then map[]
    else
      var cl := clusters[|clusters| - 1];
      NodesByName(clusters[..|clusters| - 1])[cl.name := cl.clusterType != "" || cl.vms != ""]
  }

  /** No later item has this one's name, so it is the one that counts. */
  ghost predicate LastVm(items: seq<VmInfo>, i: int, name: string) {
    0 <= i < |items| && items[i].name == name && forall j :: i < j < |items| ==> items[j].name != name
  }

  ghost predicate LastCluster(items: seq<ClusterInfo>, i: int, name: string) {
    0 <= i < |items| && items[i].name == name && forall j :: i < j < |items| ==> items[j].name != name
  }

  lemma {:induction false} StatusByNameSays(items: seq<VmInfo>, name: string)
    ensures name in StatusByName(items) <==> exists i :: 0 <= i < |items| && items[i].name == name
    ensures forall i :: LastVm(items, i, name) ==>
              name in StatusByName(items) && StatusByName(items)[name] == items[i].status
  {
    if items != [] {
      var init, last := items[..|items| - 1], items[|items| - 1];
      StatusByNameSays(init, name);
      assert items[|items| - 1].name == last.name;
      forall i | LastVm(items, i, name)
        ensures name in StatusByName(items) && StatusByName(items)[name] == items[i].status
      {
        if i < |items| - 1 {
          assert LastVm(init, i, name);
        }
      }
      if i :| 0 <= i < |init| && init[i].name == name {
        assert items[i].name == name;
      }
      if i :| 0 <= i < |items| - 1 && items[i].name == name {
        assert init[i].name == name;
      }
    }
  }

  lemma {:induction false} NodesByNameSays(items: seq<ClusterInfo>, name: string)
    ensures name in NodesByName(items) <==> exists i :: 0 <= i < |items| && items[i].name == name
    ensures forall i :: LastCluster(items, i, name) ==>
              && name in NodesByName(items)
              && NodesByName(items)[name] == (items[i].clusterType != "" || items[i].vms != "")
  {
    if items != [] {
      var init, last := items[..|items| - 1], items[|items| - 1];
      NodesByNameSays(init, name);
      assert items[|items| - 1].name == last.name;
      forall i | LastCluster(items, i, name)
        ensures name in NodesByName(items)
        ensures NodesByName(items)[name] == (items[i].clusterType != "" || items[i].vms != "")
      {
        if i < |items| - 1 {
          assert LastCluster(init, i, name);
        }
      }
      if i :| 0 <= i < |init| && init[i].name == name {
        assert items[i].name == name;
      }
      if i :| 0 <= i < |items| - 1 && items[i].name == name {
        assert init[i].name == name;
      }
    }
  }

  /** What a poll must make of a stored VM's row, given kweb's reply, the store listing and the clock. */
  ghost predicate VmOutcome(e: Entry, reply: Reply<VmInfo>, listOk: bool, now: int, after: Option<Entry>) {
    if reply.Failed? || !listOk then after == Some(e)
    else if reply.Items? && exists i :: LastVm(reply.items, i, e.kcliName) then
      && after.Some? && after.value == e.(status := after.value.status)
      && (forall i :: LastVm(reply.items, i, e.kcliName) ==>
            VmTable(reply.items[i].status, now - e.createdAt, after.value.status))
    else if e.status == "DELETED" || e.status == "DELETING" then after == Some(e)
    else after == None
  }

  /** The same for a cluster's row. */
  ghost predicate ClusterOutcome(timeout: int, e: Entry, reply: Reply<ClusterInfo>, listOk: bool, now: int,
                                 after: Option<Entry>)
  {
    var age := now - e.createdAt;
    if reply.Failed? || !listOk then after == Some(e)
    else if reply.Items? && exists i :: LastCluster(reply.items, i, e.kcliName) then
      forall i :: LastCluster(reply.items, i, e.kcliName) ==>
        after == Some(e.(status := if reply.items[i].clusterType != "" || reply.items[i].vms != "" then "ACTIVE"
                                   else if age > timeout then "ERROR"
                                   else "CREATING"))
    else if e.status == "DELETED" || e.status == "DELETING" then after == Some(e)
    else if e.status == "CREATING" then after == Some(if age > timeout then e.(status := "ERROR") else e)
    else after == None
  }

  /** What a poll must make of any stored row. */
  ghost predicate RowOutcome(cfg: Config, e: Entry, vms: Reply<VmInfo>, clusters: Reply<ClusterInfo>, vmListOk: bool,
                             clusterListOk: bool, now: int, after: Option<Entry>)
  {
    if e.kind == "vm" then VmOutcome(e, vms, vmListOk, now, after)
    else if e.kind == "cluster" then ClusterOutcome(cfg.createTimeout, e, clusters, clusterListOk, now, after)
    else after == Some(e)
  }

  lemma {:induction false} LastVmExists(items: seq<VmInfo>, name: string)
    ensures (exists i :: 0 <= i < |items| && items[i].name == name) <==> exists i :: LastVm(items, i, name)
  {
    if items != [] {
      var init := items[..|items| - 1];
      LastVmExists(init, name);
      if items[|items| - 1].name == name {
        assert LastVm(items, |items| - 1, name);
      } else {
        if i :| 0 <= i < |items| && items[i].name == name {
          assert init[i].name == name;
          var k :| LastVm(init, k, name);
          assert LastVm(items, k, name);
        }
      }
    }
  }

  lemma {:induction false} LastClusterExists(items: seq<ClusterInfo>, name: string)
    ensures (exists i :: 0 <= i < |items| && items[i].name == name) <==> exists i :: LastCluster(items, i, name)
  {
    if items != [] {
      var init := items[..|items| - 1];
      LastClusterExists(init, name);
      if items[|items| - 1].name == name {
        assert LastCluster(items, |items| - 1, name);
      } else {
        if i :| 0 <= i < |items| && items[i].name == name {
          assert init[i].name == name;
          var k :| LastCluster(init, k, name);
          assert LastCluster(items, k, name);
        }
      }
    }
  }

  lemma VmListedTarget(cfg: Config, e: Entry, view: View, status: string)
    requires e.kind == "vm" && view.vms.Some? && e.kcliName in view.vms.value && view.vms.value[e.kcliName] == status
    ensures Reconcile.Target(cfg, e, view)
            == Some(e.(status := MapVmStatus(status, view.tick(e.id).observe - e.createdAt)))
  {
    hide MapVmStatus, MapClusterStatus;
  }

  lemma VmUnlistedTarget(cfg: Config, e: Entry, view: View)
    requires e.kind == "vm" && (view.vms.Some? ==> e.kcliName !in view.vms.value)
    ensures Reconcile.Target(cfg, e, view)
            == if view.vms.None? || e.status == "DELETED" || e.status == "DELETING" then Some(e) else None
  {
    hide MapVmStatus, MapClusterStatus;
    assert VM != CLUSTER;
  }

  lemma ListedOutcome(e: Entry, reply: Reply<VmInfo>, now: int, i: int, status: string)
    requires reply.Items? && LastVm(reply.items, i, e.kcliName)
    requires VmTable(reply.items[i].status, now - e.createdAt, status)
    ensures VmOutcome(e, reply, true, now, Some(e.(status := status)))
  {
    hide VmTable;
    LastVmUnique(reply.items, i, e.kcliName);
  }

  lemma UnlistedOutcome(e: Entry, reply: Reply<VmInfo>, listOk: bool, now: int)
    requires reply.Items? ==> forall i :: !LastVm(reply.items, i, e.kcliName)
    ensures VmOutcome(e, reply, listOk, now,
                      if reply.Failed? || !listOk || e.status == "DELETED" || e.status == "DELETING" then Some(e)
                      else None)
  {
    hide VmTable, LastVm;
  }

  lemma SkippedOutcome(e: Entry, reply: Reply<VmInfo>, now: int)
    ensures VmOutcome(e, reply, false, now, Some(e))
  {
    hide VmTable, LastVm;
  }

  lemma VmTarget(cfg: Config, e: Entry, vms: Reply<VmInfo>, clusters: Reply<ClusterInfo>, vmListOk: bool,
                 clusterListOk: bool, tick: string -> Tick, flush: string -> Tick)
    requires e.kind == "vm"
    ensures VmOutcome(e, vms, vmListOk, tick(e.id).observe,
                      Reconcile.Target(cfg, e, ViewOf(vms, clusters, vmListOk, clusterListOk, tick, flush)))
  {
    hide MapVmStatus, VmTable, StatusByName, Reconcile.Target, VmOutcome;
    var items, view := ItemsOf(vms), ViewOf(vms, clusters, vmListOk, clusterListOk, tick, flush);
    var now := tick(e.id).observe;
    StatusByNameSays(items, e.kcliName);
    LastVmExists(items, e.kcliName);
    NoVmInNothing(e.kcliName);
    if !vmListOk {
      VmUnlistedTarget(cfg, e, view);
      SkippedOutcome(e, vms, now);
    } else if i :| LastVm(items, i, e.kcliName) {
      VmStatusTable(items[i].status, now - e.createdAt);
      VmListedTarget(cfg, e, view, items[i].status);
      ListedOutcome(e, vms, now, i, MapVmStatus(items[i].status, now - e.createdAt));
    } else {
      VmUnlistedTarget(cfg, e, view);
      UnlistedOutcome(e, vms, vmListOk, now);
    }
  }

  lemma LastVmUnique(items: seq<VmInfo>, i: int, name: string)
    requires LastVm(items, i, name)
    ensures forall k :: LastVm(items, k, name) ==> k == i
  {
  }

  lemma NoVmInNothing(name: string)
    ensures !exists i :: LastVm([], i, name)
  {
  }

  lemma ClusterTarget(cfg: Config, e: Entry, vms: Reply<VmInfo>, clusters: Reply<ClusterInfo>, vmListOk: bool,
                      clusterListOk: bool, tick: string -> Tick, flush: string -> Tick)
    requires e.kind == "cluster"
    ensures ClusterOutcome(cfg.createTimeout, e, clusters, clusterListOk, tick(e.id).observe,
                           Reconcile.Target(cfg, e, ViewOf(vms, clusters, vmListOk, clusterListOk, tick, flush)))
  {
    hide NodesByName, LastCluster;
    var items := ItemsOf(clusters);
    assert VM != CLUSTER;
    NodesByNameSays(items, e.kcliName);
    LastClusterExists(items, e.kcliName);
    NoClusterInNothing(e.kcliName);
  }

  lemma NoClusterInNothing(name: string)
    ensures !exists i :: LastCluster([], i, name)
  {
  }

  /** The reconcile function does what the outcome demands, row by row. */
  lemma TargetOutcome(cfg: Config, e: Entry, vms: Reply<VmInfo>, clusters: Reply<ClusterInfo>, vmListOk: bool,
                      clusterListOk: bool, tick: string -> Tick, flush: string -> Tick)
    ensures RowOutcome(cfg, e, vms, clusters, vmListOk, clusterListOk, tick(e.id).observe,
                       Reconcile.Target(cfg, e, ViewOf(vms, clusters, vmListOk, clusterListOk, tick, flush)))
  {
    if e.kind == "vm" {
      hide Reconcile.Target, VmOutcome;
      VmTarget(cfg, e, vms, clusters, vmListOk, clusterListOk, tick, flush);
    } else if e.kind == "cluster" {
      hide Reconcile.Target, ClusterOutcome;
      ClusterTarget(cfg, e, vms, clusters, vmListOk, clusterListOk, tick, flush);
    }
  }

  function ItemsOf<T>(reply: Reply<T>): seq<T> {
    if reply.Items? then reply.items else []
  }

  /** What a poll sees, given both replies and whether each store listing succeeds. */
  function ViewOf(vms: Reply<VmInfo>, clusters: Reply<ClusterInfo>, vmListOk: bool, clusterListOk: bool,
                  tick: string -> Tick, flush: string -> Tick): View
  {
    View(if vms.Failed? || !vmListOk then None else Some(StatusByName(ItemsOf(vms))),
         if clusters.Failed? || !clusterListOk then None else Some(NodesByName(ItemsOf(clusters))),
         tick, flush)
  }

  lemma {:induction false} SequentialShuffle(a: seq<Task>, b: seq<Task>)
    ensures Shuffle(a, b, a + b)
    decreases |b|, |a|
  {
    var c := a + b;
    if b != [] {
      SequentialShuffle(a, b[..|b| - 1]);
      assert c[..|c| - 1] == a + b[..|b| - 1];
    } else if a != [] {
      SequentialShuffle(a[..|a| - 1], b);
      assert c == a && a[..|a| - 1] + b == c[..|c| - 1];
    }
  }

  lemma ExecCons(cfg: Config, w: World, task: Task, rest: seq<Task>)
    ensures Exec(cfg, w, [task] + rest) == Exec(cfg, Step(cfg, w, task), rest)
  {
    ExecAppend(cfg, w, [task], rest);
    assert [task][..0] == [];
    assert Exec(cfg, w, [task]) == Step(cfg, Exec(cfg, w, []), task);
  }

  /** The steps of a verdict, one at a time. */
  lemma CarryUnfolds(cfg: Config, w: World, id: string, kind: string, verdict: Verdict, tick: Tick)
    ensures verdict.Keep? ==> Exec(cfg, w, TasksOf(id, Carry(kind, verdict, tick))) == w
    ensures verdict.Remove? ==>
              Exec(cfg, w, TasksOf(id, Carry(kind, verdict, tick)))
              == Step(cfg, Step(cfg, Step(cfg, Notified(cfg, w, id, kind, DELETED, tick), Task(id, Erase)),
                                Task(id, Count(kind, -1))), Task(id, Forget))
    ensures verdict.Become? ==>
              Exec(cfg, w, TasksOf(id, Carry(kind, verdict, tick)))
              == Step(cfg, Notified(cfg, w, id, kind, verdict.status, tick), Task(id, SetStatus(verdict.status)))
  {
    hide Step;
    var tasks := TasksOf(id, Carry(kind, verdict, tick));
    if verdict.Remove? {
      var t0, t1, t2, t3, t4 := tasks[0], tasks[1], tasks[2], tasks[3], tasks[4];
      var w1 := Step(cfg, w, t0);
      var w2 := Step(cfg, w1, t1);
      var w3 := Step(cfg, w2, t2);
      var w4 := Step(cfg, w3, t3);
      assert tasks == [t0] + ([t1] + ([t2] + ([t3] + ([t4] + []))));
      ExecCons(cfg, w, t0, [t1] + ([t2] + ([t3] + ([t4] + []))));
      ExecCons(cfg, w1, t1, [t2] + ([t3] + ([t4] + [])));
      ExecCons(cfg, w2, t2, [t3] + ([t4] + []));
      ExecCons(cfg, w3, t3, [t4] + []);
      ExecCons(cfg, w4, t4, []);
    } else if verdict.Become? {
      var t0, t1, t2 := tasks[0], tasks[1], tasks[2];
      var w1 := Step(cfg, w, t0);
      var w2 := Step(cfg, w1, t1);
      assert tasks == [t0] + ([t1] + ([t2] + []));
      ExecCons(cfg, w, t0, [t1] + ([t2] + []));
      ExecCons(cfg, w1, t1, [t2] + []);
      ExecCons(cfg, w2, t2, []);
    }
  }

  /** The world after publishWithDebounce. */
  function Notified(cfg: Config, w: World, id: string, kind: string, status: string, tick: Tick): World {
    Step(cfg, Step(cfg, w, Task(id, Schedule(kind, status, tick))), Task(id, Emit))
  }

  /** kwebMap of a VM listing: the last of several items with one name wins. */
  method IndexVms(items: seq<VmInfo>) returns (kwebMap: map<string, string>)
    ensures kwebMap == StatusByName(items)
  {
    kwebMap := map[];
    for i := 0 to |items|
      invariant kwebMap == StatusByName(items[..i])
    {
      kwebMap := kwebMap[items[i].name := items[i].status];
      assert items[..i + 1][..i] == items[..i];
    }
    assert items[..|items|] == items;
  }

  method KnownNames(rows: seq<Entry>) returns (names: set<string>)
    ensures names == Names(rows)
  {
    names := {};
    for i := 0 to |rows|
      invariant names == Names(rows[..i])
    {
      names := names + {rows[i].kcliName};
      assert rows[..i + 1] == rows[..i] + [rows[i]];
    }
    assert rows[..|rows|] == rows;
  }

  method IndexClusters(items: seq<ClusterInfo>) returns (kwebMap: map<string, bool>)
    ensures kwebMap == NodesByName(items)
  {
    kwebMap := map[];
    for i := 0 to |items|
      invariant kwebMap == NodesByName(items[..i])
    {
      kwebMap := kwebMap[items[i].name := items[i].clusterType != "" || items[i].vms != ""];
      assert items[..i + 1][..i] == items[..i];
    }
    assert items[..|items|] == items;
  }

  /**
   What a poll does to the orphan marks: a listing marks the names with the prefix that no VM row carries, or all
   names with the prefix when the rows could not be read.
  */
  ghost predicate OrphanOutcome(t: Tally, vms: Reply<VmInfo>, vmListOk: bool, rows: map<string, Entry>, after: Tally) {
    if !vms.Items? then after == t
    else
      && (forall name :: name in after.seen <==>
            && (exists i :: 0 <= i < |vms.items| && vms.items[i].name == name)
            && |name| >= 4 && name[..4] == "dcm-"
            && (vmListOk ==> forall id :: id in rows && rows[id].kind == "vm" ==> rows[id].kcliName != name))
      && after.counter == t.counter + |set name | name in after.seen && name !in t.seen|
  }

  lemma ListedNames(es: seq<Entry>, rows: map<string, Entry>, name: string)
    requires Lists(es, OfKind(rows, VM))
    ensures (forall i :: 0 <= i < |es| ==> es[i].kcliName != name)
            <==> forall id :: id in rows && rows[id].kind == "vm" ==> rows[id].kcliName != name
  {
    var ofKind := OfKind(rows, VM);
    forall id | id in rows && rows[id].kind == "vm"
      ensures exists i :: 0 <= i < |es| && es[i] == rows[id]
    {
      assert ofKind[id] in es;
    }
    forall i | 0 <= i < |es|
      ensures es[i].id in rows && rows[es[i].id].kind == "vm" && rows[es[i].id] == es[i]
    {
      assert es[i].id in ofKind;
    }
  }

  lemma LegalOrphans(cfg: Config, w: World, vms: Reply<VmInfo>, clusters: Reply<ClusterInfo>, vmListOk: bool,
                     clusterListOk: bool, tick: string -> Tick, flush: string -> Tick, order: Order, t: Tally)
    requires LegalPoll(cfg, w, ViewOf(vms, clusters, vmListOk, clusterListOk, tick, flush), order)
    ensures OrphanOutcome(t, vms, vmListOk, w.store.rows,
                          Detect(t, if vms.Items? then Seen(vms.items, order.vmRows) else Unseen))
  {
    hide Shuffle, PassTasks, Lists, OfKind, DueForFlush, Exec, Distinct, Detect, StatusByName, NodesByName;
    var s := if vms.Items? then Seen(vms.items, order.vmRows) else Unseen;
    DetectSays(t, s);
    if vms.Items? {
      forall name
        ensures Orphaned(name, vms.items, order.vmRows)
                <==> && (exists i :: 0 <= i < |vms.items| && vms.items[i].name == name)
                     && |name| >= 4 && name[..4] == "dcm-"
                     && (vmListOk ==>
                           forall id :: id in w.store.rows && w.store.rows[id].kind == "vm" ==>
                             w.store.rows[id].kcliName != name)
      {
        if vmListOk {
          ListedNames(order.vmRows, w.store.rows, name);
        }
      }
    }
  }

  class Monitor {
    const cfg: Config
    const store: Store.Store
    var lastPublish: map<string, int>
    var pending: map<string, Pending>
    var gauge: map<string, int>
    var seenOrphans: set<string>
    var orphanCounter: nat
    ghost var log: seq<Record>

    ghost predicate Valid()
      reads this, store
    {
      store.Valid()
    }

    ghost function World(): World
      requires Valid()
      reads this, store
    {
      Machine.World(store.State(), pending, lastPublish, map[], gauge, log)
    }

    constructor (cfg: Config, store: Store.Store)
      requires store.Valid()
      ensures Valid() && this.cfg == cfg && this.store == store
      ensures World() == Machine.World(store.State(), map[], map[], map[], map[], [])
      ensures seenOrphans == {} && orphanCounter == 0
    {
      this.cfg, this.store := cfg, store;
      lastPublish, pending, gauge := map[], map[], map[];
      seenOrphans, orphanCounter, log := {}, 0, [];
    }

    method ExtractPending(id: string, stamp: int) returns (pe: Option<Pending>)
      modifies this`pending, this`lastPublish
      ensures pe == Lookup(old(pending), id)
      ensures pending == old(pending) - {id}
      ensures lastPublish == if id in old(pending) then old(lastPublish)[id := stamp] else old(lastPublish)
    {
      if id !in pending {
        assert pending - {id} == pending;
        return None;
      }
      pe := Some(pending[id]);
      pending := pending - {id};
      lastPublish := lastPublish[id := stamp];
    }

    method PublishEvent(id: string, pe: Pending, stamp: int)
      modifies this`log
      ensures log == old(log) + [Record(id, Published(Event(pe.kind, pe.status, stamp)))]
    {
      log := log + [Record(id, Published(Event(pe.kind, pe.status, stamp)))];
    }

    method PublishWithDebounce(id: string, kind: string, status: string, tick: Tick)
      requires Valid()
      modifies this`pending, this`lastPublish, this`log
      ensures Valid() && World() == Notified(cfg, old(World()), id, kind, status, tick)
    {
      hide Notes;
      pending := pending[id := Pending(kind, status, tick.schedule)];
      var shouldFlush := id !in lastPublish || tick.check - lastPublish[id] >= cfg.window;
      var pe: Option<Pending> := None;
      if shouldFlush {
        pe := ExtractPending(id, tick.stamp);
      }
      if pe.Some? {
        PublishEvent(id, pe.value, tick.stamp);
      }
      assert pending == if shouldFlush then old(pending) - {id}
                        else old(pending)[id := Pending(kind, status, tick.schedule)];
      ghost var none: map<string, Event> := map[];
      assert none - {id} == none && none[id := Event(kind, status, tick.stamp)] - {id} == none;
    }

    /** Removing a row's resource: publish, delete, count, forget. */
    method Drop(entry: Entry, tick: Tick)
      requires Valid()
      modifies this, store
      ensures Valid() && seenOrphans == old(seenOrphans) && orphanCounter == old(orphanCounter)
      ensures World() == Exec(cfg, old(World()), TasksOf(entry.id, Carry(entry.kind, Remove, tick)))
    {
      hide Notes, Exec, Notified, TasksOf, Carry, Step, Delete, EntryJson.Decode, EntryJson.Encode;
      CarryUnfolds(cfg, World(), entry.id, entry.kind, Remove, tick);
      PublishWithDebounce(entry.id, entry.kind, DELETED, tick);
      RemovalSteps(cfg, World(), entry.id, entry.kind);
      store.Delete(entry.id);
      gauge := gauge[entry.kind := (if entry.kind in gauge then gauge[entry.kind] else 0) - 1];
      log := log + [Record(entry.id, Counted(entry.kind, -1))];
      lastPublish := lastPublish - {entry.id};
      pending := pending - {entry.id};
      log := log + [Record(entry.id, Forgotten)];
    }

    /** Recording a changed status: publish, then update the store. */
    method Report(entry: Entry, status: string, tick: Tick)
      requires Valid()
      modifies this, store
      ensures Valid() && seenOrphans == old(seenOrphans) && orphanCounter == old(orphanCounter)
      ensures World() == Exec(cfg, old(World()), TasksOf(entry.id, Carry(entry.kind, Become(status), tick)))
    {
      hide Notes, Exec, Notified, TasksOf, Carry, EntryJson.Decode, EntryJson.Encode;
      CarryUnfolds(cfg, World(), entry.id, entry.kind, Become(status), tick);
      PublishWithDebounce(entry.id, entry.kind, status, tick);
      var found := store.UpdateStatus(entry.id, status);
    }

    /** The body of the VM loop. */
    method ReviewVm(entry: Entry, kwebMap: map<string, string>, ghost view: View, tick: Tick)
      requires Valid() && entry.kind == VM && view.vms == Some(kwebMap) && view.tick(entry.id) == tick
      modifies this, store
      ensures Valid() && seenOrphans == old(seenOrphans) && orphanCounter == old(orphanCounter)
      ensures World() == Exec(cfg, old(World()), TasksOf(entry.id, RowActs(cfg, entry, view)))
    {
      hide Notes, Exec, TasksOf, Carry, EntryJson.Decode, EntryJson.Encode, MapVmStatus;
      CarryUnfolds(cfg, World(), entry.id, VM, Keep, tick);
      if entry.kcliName !in kwebMap {
        if entry.status != DELETED && entry.status != DELETING {
          Drop(entry, tick);
        }
        return;
      }
      var newStatus := MapVmStatus(kwebMap[entry.kcliName], tick.observe - entry.createdAt);
      if newStatus != entry.status {
        Report(entry, newStatus, tick);
      }
    }

    /** The body of the cluster loop. */
    method ReviewCluster(entry: Entry, kwebMap: map<string, bool>, ghost view: View, tick: Tick)
      requires Valid() && entry.kind == CLUSTER && view.clusters == Some(kwebMap) && view.tick(entry.id) == tick
      modifies this, store
      ensures Valid() && seenOrphans == old(seenOrphans) && orphanCounter == old(orphanCounter)
      ensures World() == Exec(cfg, old(World()), TasksOf(entry.id, RowActs(cfg, entry, view)))
    {
      hide Notes, Exec, TasksOf, Carry, EntryJson.Decode, EntryJson.Encode, MapClusterStatus;
      assert VM != CLUSTER;
      CarryUnfolds(cfg, World(), entry.id, CLUSTER, Keep, tick);
      if entry.kcliName !in kwebMap {
        if entry.status == CREATING && tick.observe - entry.createdAt > cfg.createTimeout {
          Report(entry, ERROR, tick);
        } else if entry.status != DELETED && entry.status != DELETING && entry.status != CREATING {
          Drop(entry, tick);
        }
        return;
      }
      var newStatus := MapClusterStatus(kwebMap[entry.kcliName], tick.observe - entry.createdAt, cfg.createTimeout);
      if newStatus != entry.status {
        Report(entry, newStatus, tick);
      }
    }

    method PollVMs(reply: Reply<VmInfo>, listOk: bool, ghost view: View, tick: string -> Tick)
      returns (kwebVMs: Option<seq<VmInfo>>, storeVMs: seq<Entry>)
      requires Valid()
      requires view.tick == tick
      requires view.vms == if reply.Failed? || !listOk then None else Some(StatusByName(ItemsOf(reply)))
      modifies this, store
      ensures Valid() && seenOrphans == old(seenOrphans) && orphanCounter == old(orphanCounter)
      ensures kwebVMs == if reply.Items? then Some(reply.items) else None
      ensures if view.vms.Some? then Lists(storeVMs, OfKind(old(World()).store.rows, VM)) else storeVMs == []
      ensures World() == Exec(cfg, old(World()), PassTasks(cfg, storeVMs, view))
    {
      hide EntryJson.Decode, EntryJson.Encode, RowActs, Step;
      if reply.Failed? {
        return None, [];
      }
      kwebVMs := if reply.Items? then Some(reply.items) else None;
      var kwebMap := IndexVms(ItemsOf(reply));
      if !listOk {
        return kwebVMs, [];
      }
      storeVMs := store.List(VM);
      ghost var w0 := World();
      for i := 0 to |storeVMs|
        invariant Valid() && seenOrphans == old(seenOrphans) && orphanCounter == old(orphanCounter)
        invariant World() == Exec(cfg, w0, PassTasks(cfg, storeVMs[..i], view))
      {
        assert storeVMs[i].kind == VM by { assert storeVMs[i].id in OfKind(w0.store.rows, VM); }
        ReviewVm(storeVMs[i], kwebMap, view, tick(storeVMs[i].id));
        PassGrows(cfg, w0, storeVMs, i, view);
      }
      assert storeVMs[..|storeVMs|] == storeVMs;
    }

    method PollClusters(reply: Reply<ClusterInfo>, listOk: bool, ghost view: View, tick: string -> Tick)
      returns (ghost storeClusters: seq<Entry>)
      requires Valid()
      requires view.tick == tick
      requires view.clusters == if reply.Failed? || !listOk then None else Some(NodesByName(ItemsOf(reply)))
      modifies this, store
      ensures Valid() && seenOrphans == old(seenOrphans) && orphanCounter == old(orphanCounter)
      ensures if view.clusters.Some? then Lists(storeClusters, OfKind(old(World()).store.rows, CLUSTER))
              else storeClusters == []
      ensures World() == Exec(cfg, old(World()), PassTasks(cfg, storeClusters, view))
    {
      hide EntryJson.Decode, EntryJson.Encode, RowActs, Step;
      storeClusters := [];
      if reply.Failed? {
        return;
      }
      var kwebMap := IndexClusters(ItemsOf(reply));
      if !listOk {
        return;
      }
      var entries := store.List(CLUSTER);
      storeClusters := entries;
      ghost var w0 := World();
      for i := 0 to |entries|
        invariant Valid() && seenOrphans == old(seenOrphans) && orphanCounter == old(orphanCounter)
        invariant World() == Exec(cfg, w0, PassTasks(cfg, entries[..i], view))
      {
        assert entries[i].kind == CLUSTER by { assert entries[i].id in OfKind(w0.store.rows, CLUSTER); }
        ReviewCluster(entries[i], kwebMap, view, tick(entries[i].id));
        PassGrows(cfg, w0, entries, i, view);
      }
      assert entries[..|entries|] == entries;
    }

    /** flushPending's mutex section: takes out every pending event whose window has elapsed. */
    method ExtractDue(ghost view: View, flush: string -> Tick)
      returns (toFlush: seq<(string, Pending)>, ghost ids: seq<string>, ghost held: map<string, Event>)
      requires Valid() && view.flush == flush
      modifies this`pending, this`lastPublish
      ensures Valid() && Distinct(ids) && Extracted(toFlush, ids, held, 0, view)
      ensures forall id :: id in ids <==> DueForFlush(cfg, old(World()), view, id)
      ensures Exec(cfg, old(World()), Extractions(ids, view)) == World().(held := held)
    {
      hide Notes, EntryJson.Decode, EntryJson.Encode, Step, Store.Store.Readable, Extracted, Extracting;
      ghost var w0 := World();
      ids, toFlush, held := [], [], map[];
      NothingExtracted(cfg, w0, view);
      var todo := pending.Keys;
      while todo != {}
        invariant Valid() && todo <= pending.Keys && Extracted(toFlush, ids, held, 0, view)
        invariant Extracting(cfg, w0, World().(held := held), todo, ids, view)
      {
        var id :| id in todo;
        ghost var w1 := World().(held := held);
        if id !in lastPublish || flush(id).check - lastPublish[id] >= cfg.window {
          FlushStep(cfg, w1, id, flush(id));
          Extracts(cfg, w0, w1, todo, ids, view, id);
          var pe := ExtractPending(id, flush(id).stamp);
          ExtractedGrows(toFlush, ids, held, id, pe.value, view);
          toFlush := toFlush + [(id, pe.value)];
          held := held[id := Event(pe.value.kind, pe.value.status, flush(id).stamp)];
          ids := ids + [id];
        } else {
          Passes(cfg, w0, w1, todo, ids, view, id);
        }
        todo := todo - {id};
      }
      AllExtracted(cfg, w0, World().(held := held), ids, view);
    }

    /** Publishes pending events whose window has elapsed: all extractions first, then all publications. */
    method FlushPending(ghost view: View, flush: string -> Tick) returns (ghost ids: seq<string>)
      requires Valid() && view.flush == flush
      modifies this`pending, this`lastPublish, this`log
      ensures Valid() && Distinct(ids)
      ensures forall id :: id in ids <==> DueForFlush(cfg, old(World()), view, id)
      ensures World() == Exec(cfg, old(World()), FlushTasks(ids, view))
    {
      hide Notes, EntryJson.Decode, EntryJson.Encode, Step, Exec, Extractions, Publications, DueForFlush,
        Store.Store.Readable, Extracted;
      ghost var w0 := World();
      var toFlush;
      ghost var held;
      toFlush, ids, held := ExtractDue(view, flush);
      ghost var w1 := World().(held := held);
      NothingPublished(cfg, w1, toFlush, ids, held, view);
      for k := 0 to |toFlush|
        invariant Valid() && Extracted(toFlush, ids, held, k, view)
        invariant Exec(cfg, w1, Publications(ids[..k])) == World().(held := held)
      {
        ExtractedShrinks(toFlush, ids, held, k, view);
        var id := toFlush[k].0;
        EmitStep(cfg, World().(held := held), id);
        PublicationsSnoc(cfg, w1, ids, k);
        PublishEvent(id, toFlush[k].1, flush(id).stamp);
        held := held - {id};
      }
      AllPublished(toFlush, ids, held, view);
      ExecAppend(cfg, w0, Extractions(ids, view), Publications(ids));
    }

    /** Unmarks names that are no longer orphans. */
    method ForgetResolved(current: set<string>)
      requires current <= seenOrphans
      modifies this`seenOrphans
      ensures seenOrphans == current
    {
      var todo := seenOrphans;
      while todo != {}
        invariant todo <= seenOrphans
        invariant current <= seenOrphans <= current + todo
      {
        var name :| name in todo;
        if name !in current {
          seenOrphans := seenOrphans - {name};
        }
        todo := todo - {name};
      }
    }

    /** Marks an orphan, counting it if it was not marked yet. */
    method MarkOrphan(name: string)
      modifies this`seenOrphans, this`orphanCounter
      ensures seenOrphans == old(seenOrphans) + {name}
      ensures orphanCounter == old(orphanCounter) + if name in old(seenOrphans) then 0 else 1
    {
      if name !in seenOrphans {
        seenOrphans := seenOrphans + {name};
        orphanCounter := orphanCounter + 1;
      }
    }

    /** Marks all orphans, counting those not marked yet. */
    method MarkOrphans(vms: seq<VmInfo>, ghost storeVMs: seq<Entry>, knownNames: set<string>)
      returns (current: set<string>)
      requires knownNames == Names(storeVMs)
      modifies this`seenOrphans, this`orphanCounter
      ensures current == OrphansOf(vms, storeVMs) && seenOrphans == old(seenOrphans) + current
      ensures orphanCounter == old(orphanCounter) + Added(current, old(seenOrphans))
    {
      hide OrphansOf, Names, Ours, Added;
      NoOrphansYet(vms, storeVMs);
      ghost var before, count := seenOrphans, orphanCounter;
      current := {};
      NoneAdded(before);
      for i := 0 to |vms|
        invariant current == OrphansOf(vms[..i], storeVMs) && seenOrphans == before + current
        invariant orphanCounter == count + Added(current, before)
      {
        var name := vms[i].name;
        OrphansGrow(vms, storeVMs, i);
        if Ours(name) && name !in knownNames {
          OneAdded(current, before, name);
          current := current + {name};
          MarkOrphan(name);
        }
      }
    }

    method DetectVMOrphans(kwebVMs: Option<seq<VmInfo>>, storeVMs: seq<Entry>)
      modifies this`seenOrphans, this`orphanCounter
      ensures Tally(seenOrphans, orphanCounter)
              == Detect(old(Tally(seenOrphans, orphanCounter)),
                        if kwebVMs.None? then Unseen else Seen(kwebVMs.value, storeVMs))
      ensures Noticed(old(Tally(seenOrphans, orphanCounter)),
                      if kwebVMs.None? then Unseen else Seen(kwebVMs.value, storeVMs),
                      Tally(seenOrphans, orphanCounter))
    {
      hide OrphansOf, Names, Ours, Noticed;
      DetectSays(Tally(seenOrphans, orphanCounter), if kwebVMs.None? then Unseen else Seen(kwebVMs.value, storeVMs));
      if kwebVMs.None? {
        return;
      }
      var knownNames := KnownNames(storeVMs);
      var current := MarkOrphans(kwebVMs.value, storeVMs, knownNames);
      ForgetResolved(current);
    }

    /** One poll. The passes run one after the other here; `order` records the order taken. */
    method Poll(vms: Reply<VmInfo>, clusters: Reply<ClusterInfo>, vmListOk: bool, clusterListOk: bool,
                tick: string -> Tick, flush: string -> Tick)
      returns (ghost order: Order)
      requires Valid()
      modifies this, store
      ensures Valid()
      ensures var view := ViewOf(vms, clusters, vmListOk, clusterListOk, tick, flush);
              LegalPoll(cfg, old(World()), view, order) && World() == Exec(cfg, old(World()), PollTasks(view, order))
      ensures Tally(seenOrphans, orphanCounter)
              == Detect(old(Tally(seenOrphans, orphanCounter)),
                        if vms.Items? then Seen(vms.items, order.vmRows) else Unseen)
    {
      hide Notes, EntryJson.Decode, EntryJson.Encode, Exec, Step, Store.Store.Readable, Detect, DueForFlush, PassTasks,
        FlushTasks, StatusByName, NodesByName, Lists, OfKind;
      ghost var view := ViewOf(vms, clusters, vmListOk, clusterListOk, tick, flush);
      ghost var w0 := World();
      var kwebVMs, storeVMs := PollVMs(vms, vmListOk, view, tick);
      ghost var w1 := World();
      ghost var storeClusters := PollClusters(clusters, clusterListOk, view, tick);
      ghost var w2 := World();
      ghost var a, b := PassTasks(cfg, storeVMs, view), PassTasks(cfg, storeClusters, view);
      VmPassKeepsClusters(cfg, w0, view, storeVMs);
      ExecAppend(cfg, w0, a, b);
      SequentialShuffle(a, b);
      ghost var ids := FlushPending(view, flush);
      order := Order(storeVMs, storeClusters, a + b, ids);
      ExecAppend(cfg, w0, a + b, FlushTasks(ids, view));
      DetectVMOrphans(kwebVMs, storeVMs);
    }

    /**
     One poll, by what it achieves: each row becomes what kweb's reply and the clock demand, the index loses the
     names of the rows that went, and subscribers still agree with the rows.
    */
    method PollOnce(vms: Reply<VmInfo>, clusters: Reply<ClusterInfo>, vmListOk: bool, clusterListOk: bool,
                    tick: string -> Tick, flush: string -> Tick)
      requires Valid()
      modifies this, store
      ensures Valid()
      ensures World().store.rows
              == Reconcile.Reconciled(cfg, old(World()).store.rows,
                                      ViewOf(vms, clusters, vmListOk, clusterListOk, tick, flush))
      ensures World().store.names
              == NamesLeft(old(World()).store.names, old(World()).store.rows, World().store.rows)
      ensures forall id :: id in old(World()).store.rows && old(World()).store.rows[id].id == id ==>
                RowOutcome(cfg, old(World()).store.rows[id], vms, clusters, vmListOk, clusterListOk,
                           tick(id).observe, Lookup(World().store.rows, id))
      ensures World().store.rows.Keys <= old(World()).store.rows.Keys
      ensures OrphanOutcome(old(Tally(seenOrphans, orphanCounter)), vms, vmListOk, old(World()).store.rows,
                            Tally(seenOrphans, orphanCounter))
      ensures forall id :: Reporting.Reports(cfg.window, SliceOf(old(World()), id), SliceOf(World(), id), tick(id),
                                             flush(id))
      ensures old(Reporting.Agreement(World())) ==> Reporting.Agreement(World())
    {
      hide EntryJson.Decode, EntryJson.Encode, Store.Store.Readable, LegalPoll, PollTasks, ViewOf, Reconcile.Reconciled,
        NamesLeft, Detect, RowOutcome, OrphanOutcome, SliceOf, Exec, Reporting.Reports;
      ghost var t0 := Tally(seenOrphans, orphanCounter);
      ghost var view := ViewOf(vms, clusters, vmListOk, clusterListOk, tick, flush);
      ghost var w0 := World();
      ghost var order := Poll(vms, clusters, vmListOk, clusterListOk, tick, flush);
      LegalOrphans(cfg, w0, vms, clusters, vmListOk, clusterListOk, tick, flush, order, t0);
      Reconcile.PollRefinesReconcile(cfg, w0, view, order);
      forall id
        ensures Reporting.Reports(cfg.window, SliceOf(w0, id), SliceOf(World(), id), tick(id), flush(id))
      {
        ViewClocks(vms, clusters, vmListOk, clusterListOk, tick, flush);
        Reporting.PollReports(cfg, w0, view, order, id);
      }
      ReconciledOutcome(cfg, w0.store.rows, vms, clusters, vmListOk, clusterListOk, tick, flush);
      if Reporting.Agreement(w0) {
        Reporting.RoundKeepsAgreement(cfg, w0, Rounds.PollRound(view, order, 0, 0));
      }
    }
  }

  lemma ViewClocks(vms: Reply<VmInfo>, clusters: Reply<ClusterInfo>, vmListOk: bool, clusterListOk: bool,
                   tick: string -> Tick, flush: string -> Tick)
    ensures var view := ViewOf(vms, clusters, vmListOk, clusterListOk, tick, flush);
            view.tick == tick && view.flush == flush
  {
  }

  lemma ReconciledOutcome(cfg: Config, rows: map<string, Entry>, vms: Reply<VmInfo>, clusters: Reply<ClusterInfo>,
                          vmListOk: bool, clusterListOk: bool, tick: string -> Tick, flush: string -> Tick)
    ensures var after := Reconcile.Reconciled(cfg, rows, ViewOf(vms, clusters, vmListOk, clusterListOk, tick, flush));
            && after.Keys <= rows.Keys
            && forall id :: id in rows && rows[id].id == id ==>
                 RowOutcome(cfg, rows[id], vms, clusters, vmListOk, clusterListOk, tick(id).observe, Lookup(after, id))
  {
    hide Reconcile.Target, RowOutcome, ViewOf;
    forall id | id in rows && rows[id].id == id
      ensures RowOutcome(cfg, rows[id], vms, clusters, vmListOk, clusterListOk, tick(id).observe,
                         Reconcile.Target(cfg, rows[id], ViewOf(vms, clusters, vmListOk, clusterListOk, tick, flush)))
    {
      TargetOutcome(cfg, rows[id], vms, clusters, vmListOk, clusterListOk, tick, flush);
    }
  }

  lemma VmPassKeepsClusters(cfg: Config, w: World, view: View, vmRows: seq<Entry>)
    requires if view.vms.Some? then Lists(vmRows, OfKind(w.store.rows, VM)) else vmRows == []
    ensures OfKind(Exec(cfg, w, PassTasks(cfg, vmRows, view)).store.rows, CLUSTER) == OfKind(w.store.rows, CLUSTER)
  {
    assert VM != CLUSTER;
    var tasks := PassTasks(cfg, vmRows, view);
    ListingStable(cfg, w, view, vmRows, |tasks|, CLUSTER);
    assert tasks[..|tasks|] == tasks;
  }

  /** How many of `current` are not in `before`. */
  function Added(current: set<string>, before: set<string>): nat {
    |current - before|
  }

  lemma NoneAdded(before: set<string>)
    ensures before + {} == before && Added({}, before) == 0
  {
    assert {} - before == {};
  }

  lemma OneAdded(current: set<string>, before: set<string>, name: string)
    ensures before + (current + {name}) == before + current + {name}
    ensures Added(current + {name}, before) == Added(current, before) + if name in before + current then 0 else 1
  {
    if name in before + current {
      assert current + {name} - before == current - before;
    } else {
      assert current + {name} - before == (current - before) + {name};
    }
  }

  lemma NoOrphansYet(vms: seq<VmInfo>, rows: seq<Entry>)
    ensures OrphansOf(vms[..0], rows) == {} && vms[..|vms|] == vms
  {
  }

  lemma OrphansGrow(vms: seq<VmInfo>, rows: seq<Entry>, i: int)
    requires 0 <= i < |vms|
    ensures OrphansOf(vms[..i + 1], rows)
            == OrphansOf(vms[..i], rows)
               + if Ours(vms[i].name) && vms[i].name !in Names(rows) then {vms[i].name} else {}
  {
  }

  /** `held` has exactly the events of `toFlush` from the k-th on, which are those of `ids`. */
  ghost predicate Extracted(toFlush: seq<(string, Pending)>, ids: seq<string>, held: map<string, Event>, k: nat,
                            view: View)
  {
    && |toFlush| == |ids| && k <= |ids| && Distinct(ids)
    && (forall i :: 0 <= i < |ids| ==> toFlush[i].0 == ids[i])
    && (forall i :: k <= i < |ids| ==>
          ids[i] in held && held[ids[i]] == Event(toFlush[i].1.kind, toFlush[i].1.status, view.flush(ids[i]).stamp))
    && (forall id :: id in held ==> id in ids[k..])
  }

  /** The flush has come from `w0` to `w` by taking out `ids`, with `todo` still to look at. */
  ghost predicate Extracting(cfg: Config, w0: World, w: World, todo: set<string>, ids: seq<string>, view: View) {
    && w.pending.Keys <= w0.pending.Keys
    && (forall id :: id in w.pending ==> w.pending[id] == w0.pending[id])
    && (forall id :: id in todo || id !in w0.pending ==> Lookup(w.last, id) == Lookup(w0.last, id))
    && Distinct(ids)
    && (forall id :: id in ids <==> id in w0.pending && id !in todo && DueForFlush(cfg, w0, view, id))
    && Exec(cfg, w0, Extractions(ids, view)) == w
  }

  lemma Extracts(cfg: Config, w0: World, w: World, todo: set<string>, ids: seq<string>, view: View, id: string)
    requires Extracting(cfg, w0, w, todo, ids, view) && id in todo && id in w.pending
    requires Open(cfg, Lookup(w.last, id), view.flush(id).check)
    ensures Extracting(cfg, w0, Step(cfg, w, Task(id, Flush(view.flush(id)))), todo - {id}, ids + [id], view)
    ensures id !in ids
  {
    hide Exec, Step, Extractions;
    FlushStep(cfg, w, id, view.flush(id));
    ExtractionsSnoc(cfg, w0, ids, id, view);
  }

  lemma Passes(cfg: Config, w0: World, w: World, todo: set<string>, ids: seq<string>, view: View, id: string)
    requires Extracting(cfg, w0, w, todo, ids, view) && id in todo
    requires !Open(cfg, Lookup(w.last, id), view.flush(id).check)
    ensures Extracting(cfg, w0, w, todo - {id}, ids, view)
  {
    hide Exec, Extractions;
  }

  lemma AllExtracted(cfg: Config, w0: World, w: World, ids: seq<string>, view: View)
    requires Extracting(cfg, w0, w, {}, ids, view)
    ensures Distinct(ids) && Exec(cfg, w0, Extractions(ids, view)) == w
    ensures forall id :: id in ids <==> DueForFlush(cfg, w0, view, id)
  {
    hide Exec, Extractions;
  }

  lemma NothingExtracted(cfg: Config, w: World, view: View)
    requires w.held == map[]
    ensures Extracted([], [], map[], 0, view)
    ensures Extracting(cfg, w, w, w.pending.Keys, [], view)
  {
  }

  lemma NothingPublished(cfg: Config, w: World, toFlush: seq<(string, Pending)>, ids: seq<string>,
                         held: map<string, Event>, view: View)
    requires Extracted(toFlush, ids, held, 0, view)
    ensures |toFlush| == |ids| && Exec(cfg, w, Publications(ids[..0])) == w
  {
  }

  lemma AllPublished(toFlush: seq<(string, Pending)>, ids: seq<string>, held: map<string, Event>, view: View)
    requires |toFlush| == |ids| && Extracted(toFlush, ids, held, |ids|, view)
    ensures held == map[] && ids[..|ids|] == ids
  {
  }

  lemma ExtractionsSnoc(cfg: Config, w: World, ids: seq<string>, id: string, view: View)
    ensures Exec(cfg, w, Extractions(ids + [id], view))
            == Step(cfg, Exec(cfg, w, Extractions(ids, view)), Task(id, Flush(view.flush(id))))
  {
    assert Extractions(ids + [id], view)[..|ids|] == Extractions(ids, view);
  }

  lemma PublicationsSnoc(cfg: Config, w: World, ids: seq<string>, k: nat)
    requires k < |ids|
    ensures Exec(cfg, w, Publications(ids[..k + 1]))
            == Step(cfg, Exec(cfg, w, Publications(ids[..k])), Task(ids[k], Emit))
  {
    assert Publications(ids[..k + 1])[..k] == Publications(ids[..k]);
  }

  lemma ExtractedShrinks(toFlush: seq<(string, Pending)>, ids: seq<string>, held: map<string, Event>, k: nat,
                         view: View)
    requires k < |toFlush| && Extracted(toFlush, ids, held, k, view)
    ensures |toFlush| == |ids| && toFlush[k].0 == ids[k] && ids[k] in held
    ensures held[ids[k]] == Event(toFlush[k].1.kind, toFlush[k].1.status, view.flush(ids[k]).stamp)
    ensures Extracted(toFlush, ids, held - {ids[k]}, k + 1, view)
  {
  }

  lemma ExtractedGrows(toFlush: seq<(string, Pending)>, ids: seq<string>, held: map<string, Event>,
                       id: string, pe: Pending, view: View)
    requires Extracted(toFlush, ids, held, 0, view) && id !in ids
    ensures var event := Event(pe.kind, pe.status, view.flush(id).stamp);
            Extracted(toFlush + [(id, pe)], ids + [id], held[id := event], 0, view)
  {
  }

  lemma FlushStep(cfg: Config, w: World, id: string, tick: Tick)
    requires id in w.pending && Open(cfg, Lookup(w.last, id), tick.check)
    ensures Step(cfg, w, Task(id, Flush(tick)))
            == w.(pending := w.pending - {id}, last := w.last[id := tick.stamp],
                  held := w.held[id := Event(w.pending[id].kind, w.pending[id].status, tick.stamp)])
  {
  }

  lemma EmitStep(cfg: Config, w: World, id: string)
    requires id in w.held
    ensures Step(cfg, w, Task(id, Emit))
            == w.(held := w.held - {id}, log := w.log + [Record(id, Published(w.held[id]))])
  {
  }

  lemma RemovalSteps(cfg: Config, w: World, id: string, kind: string)
    ensures Step(cfg, Step(cfg, Step(cfg, w, Task(id, Erase)), Task(id, Count(kind, -1))), Task(id, Forget))
            == World(Delete(w.store, id), w.pending - {id}, w.last - {id}, w.held,
                     w.gauge[kind := Level(w, kind) - 1],
                     w.log + [Record(id, Counted(kind, -1))] + [Record(id, Forgotten)])
  {
  }

  lemma PassGrows(cfg: Config, w: World, entries: seq<Entry>, i: int, view: View)
    requires 0 <= i < |entries|
    ensures Exec(cfg, w, PassTasks(cfg, entries[..i + 1], view))
            == Exec(cfg, Exec(cfg, w, PassTasks(cfg, entries[..i], view)),
                    TasksOf(entries[i].id, RowActs(cfg, entries[i], view)))
  {
    assert entries[..i + 1][..i] == entries[..i];
    ExecAppend(cfg, w, PassTasks(cfg, entries[..i], view), TasksOf(entries[i].id, RowActs(cfg, entries[i], view)));
  }
}
