/** The create and delete request handlers, step by step, over the store, the gauges and kweb's names. */
module Handlers {
  import opened Resource
  import opened Machine
  import opened Service
  import EntryJson
  import Monitor

  class Provider {
    const monitor: Monitor.Monitor
    var vms: set<string>       // what kweb has
    var clusters: set<string>
    var calls: nat             // changing calls kweb has received

    ghost predicate Valid()
      reads this, monitor, monitor.store
    {
      monitor.Valid()
    }

    ghost function State(): Systems
      requires Valid()
      reads this, monitor, monitor.store
    {
      Systems(monitor.World(), vms, clusters, calls)
    }

    constructor (monitor: Monitor.Monitor)
      requires monitor.Valid()
      ensures Valid() && this.monitor == monitor
      ensures State() == Systems(monitor.World(), {}, {}, 0)
    {
      this.monitor := monitor;
      vms, clusters, calls := {}, {}, 0;
    }

    /** The managed-resources gauge. */
    method Adjust(id: string, kind: string, delta: int)
      requires Valid()
      modifies monitor`gauge, monitor`log
      ensures Valid() && monitor.World() == Step(monitor.cfg, old(monitor.World()), Task(id, Count(kind, delta)))
    {
      hide EntryJson.Decode, EntryJson.Encode;
      monitor.gauge := monitor.gauge[kind := (if kind in monitor.gauge then monitor.gauge[kind] else 0) + delta];
      monitor.log := monitor.log + [Record(id, Counted(kind, delta))];
    }

    /** Stores a new row and counts it. */
    method Insert(entry: Entry)
      requires Valid()
      modifies monitor`gauge, monitor`log, monitor.store
      ensures Valid() && monitor.World() == Inserted(monitor.cfg, old(monitor.World()), entry)
    {
      hide EntryJson.Decode, EntryJson.Encode;
      ghost var w0 := monitor.World();
      monitor.store.Put(entry);
      monitor.log := monitor.log + [Record(entry.id, Stored(entry.status))];
      assert Entry(entry.id, entry.kcliName, entry.kind, entry.status, entry.createdAt) == entry;
      assert monitor.World() == Step(monitor.cfg, w0,
               Task(entry.id, Machine.Insert(entry.kcliName, entry.kind, entry.status, entry.createdAt)));
      Adjust(entry.id, entry.kind, 1);
    }

    method SetStatus(id: string, status: string)
      requires Valid()
      modifies monitor.store
      ensures Valid() && monitor.World() == Step(monitor.cfg, old(monitor.World()), Task(id, Machine.SetStatus(status)))
    {
      hide EntryJson.Decode, EntryJson.Encode;
      var found := monitor.store.UpdateStatus(id, status);
    }

    method CreateVM(req: CreateRequest, o: CreateOracle) returns (response: Response)
      requires Valid()
      modifies this, monitor`gauge, monitor`log, monitor.store
      ensures Valid() && (State(), response) == ServeCreate(monitor.cfg, old(State()), VM, req, o)
      ensures CreateOutcome(old(State()), State(), VM, req, o, response)
    {
      hide EntryJson.Decode, EntryJson.Encode, Inserted, CreateOutcome;
      CreateAnswers(monitor.cfg, State(), VM, req, o);
      if req.clientId != "" {
        var existing := monitor.store.Get(req.clientId);
        if existing.Some? {
          if existing.value.kind != VM {
            return Problem(409);
          }
          return Created(req.clientId, existing.value.status);
        }
      }
      if !req.acceptable {
        return Problem(400);
      }
      var kcliName := DCM_PREFIX + ResolveName(req, o.freshName);
      calls := calls + 1;
      if o.kweb != Accepted {
        return Problem(FailureCode(o.kweb));
      }
      vms := vms + {kcliName};
      var id := ResolveId(req, o.freshId);
      var entry := Entry(id, kcliName, VM, PROVISIONING, o.now);
      if !o.putOk {
        calls := calls + 1;
        if o.rollbackOk {
          vms := vms - {kcliName};
        }
        return Problem(500);
      }
      Insert(entry);
      response := Created(id, PROVISIONING);
    }

    method CreateCluster(req: CreateRequest, o: CreateOracle) returns (response: Response)
      requires Valid()
      modifies this, monitor`gauge, monitor`log, monitor.store
      ensures Valid() && (State(), response) == ServeCreate(monitor.cfg, old(State()), CLUSTER, req, o)
      ensures CreateOutcome(old(State()), State(), CLUSTER, req, o, response)
    {
      hide EntryJson.Decode, EntryJson.Encode, Inserted, CreateOutcome;
      CreateAnswers(monitor.cfg, State(), CLUSTER, req, o);
      assert VM != CLUSTER;
      if req.clientId != "" {
        var existing := monitor.store.Get(req.clientId);
        if existing.Some? {
          if existing.value.kind != CLUSTER {
            return Problem(409);
          }
          return Created(req.clientId, existing.value.status);
        }
      }
      if !req.acceptable {
        return Problem(400);
      }
      var kcliName := DCM_PREFIX + ResolveName(req, o.freshName);
      calls := calls + 1;
      if o.kweb != Accepted {
        return Problem(FailureCode(o.kweb));
      }
      clusters := clusters + {kcliName};
      var id := ResolveId(req, o.freshId);
      var entry := Entry(id, kcliName, CLUSTER, CREATING, o.now);
      if !o.putOk {
        calls := calls + 1;
        if o.rollbackOk {
          clusters := clusters - {kcliName};
        }
        return Problem(500);
      }
      Insert(entry);
      response := Created(id, CREATING);
    }

    /** The steps of a delete after kweb accepted it. */
    method Complete(id: string, kind: string, eraseOk: bool)
      requires Valid()
      modifies monitor`gauge, monitor`log, monitor.store
      ensures Valid() && monitor.World() == Removed(monitor.cfg, old(monitor.World()), kind, id, eraseOk)
    {
      hide EntryJson.Decode, EntryJson.Encode;
      ghost var w0 := monitor.World();
      monitor.log := monitor.log + [Record(id, Announced(kind, DELETED))];
      ghost var w1 := monitor.World();
      assert w1 == Step(monitor.cfg, w0, Task(id, Announce(kind, DELETED)));
      if eraseOk {
        monitor.store.Delete(id);
        assert monitor.World() == Step(monitor.cfg, w1, Task(id, Erase));
      }
      Adjust(id, kind, -1);
    }

    method DeleteVM(id: string, o: DeleteOracle) returns (response: Response)
      requires Valid()
      modifies this, monitor`gauge, monitor`log, monitor.store
      ensures Valid() && (State(), response) == ServeDelete(monitor.cfg, old(State()), VM, id, o)
      ensures DeleteOutcome(old(State()), State(), VM, id, o, response)
    {
      hide EntryJson.Decode, EntryJson.Encode, Removed, Step, DeleteOutcome;
      DeleteAnswers(monitor.cfg, State(), VM, id, o);
      var entry := monitor.store.Get(id);
      if entry.None? {
        return Problem(404);
      }
      if entry.value.status == DELETING || entry.value.status == DELETED {
        return NoContent;
      }
      if o.markOk {
        SetStatus(id, DELETING);
      }
      calls := calls + 1;
      if o.kweb != Accepted {
        if o.restoreOk {
          SetStatus(id, entry.value.status);
        }
        return Problem(if o.kweb.Unreachable? then 502 else 500);
      }
      vms := vms - {entry.value.kcliName};
      Complete(id, VM, o.eraseOk);
      response := NoContent;
    }

    method DeleteCluster(id: string, o: DeleteOracle) returns (response: Response)
      requires Valid()
      modifies this, monitor`gauge, monitor`log, monitor.store
      ensures Valid() && (State(), response) == ServeDelete(monitor.cfg, old(State()), CLUSTER, id, o)
      ensures DeleteOutcome(old(State()), State(), CLUSTER, id, o, response)
    {
      hide EntryJson.Decode, EntryJson.Encode, Removed, Step, DeleteOutcome;
      DeleteAnswers(monitor.cfg, State(), CLUSTER, id, o);
      assert VM != CLUSTER;
      var entry := monitor.store.Get(id);
      if entry.None? {
        return Problem(404);
      }
      if entry.value.status == DELETING || entry.value.status == DELETED {
        return NoContent;
      }
      if o.markOk {
        SetStatus(id, DELETING);
      }
      calls := calls + 1;
      if o.kweb != Accepted {
        if o.restoreOk {
          SetStatus(id, entry.value.status);
        }
        return Problem(if o.kweb.Unreachable? then 502 else 500);
      }
      clusters := clusters - {entry.value.kcliName};
      Complete(id, CLUSTER, o.eraseOk);
      response := NoContent;
    }
  }
}
