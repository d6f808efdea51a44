/**
 The shared state as a machine of atomic steps.

 A step is one mutex section, one store transaction, one publication or one gauge update, done on
 behalf of one resource id by the monitor or by a request handler. `World` is the whole state; `Slice`
 is the part of it that concerns one id. The main results are that a run of the world, seen at one id,
 is a run of that id's slice (`Locality`), and so that two runs that agree id by id reach the same
 state however their steps interleave (`ProjectionsDecide`).
*/
module Machine {
  import opened Resource
  import opened StoreModel

  datatype Config = Config(window: int, createTimeout: int)

  /** The clock readings taken while one id is handled, in the order the code takes them. */
  datatype Tick = Tick(observe: int, schedule: int, check: int, stamp: int)

  datatype Pending = Pending(kind: string, status: string, scheduledAt: int)
  datatype Event = Event(kind: string, status: string, at: int)

  /**
   What happens to one id, besides its row: it is stored, published by the monitor, announced by a
   handler, counted, and forgotten by the debounce maps.
  */
  datatype Note =
    | Stored(status: string)
    | Published(event: Event)
    | Announced(kind: string, status: string)
    | Counted(kind: string, delta: int)
    | Forgotten

  datatype Record = Record(id: string, note: Note)

  datatype Act =
    | Schedule(kind: string, status: string, tick: Tick)  // the mutex section of publishWithDebounce
    | Flush(tick: Tick)                                   // this id's turn in flushPending's mutex section
    | Emit                                                // publishing what such a section extracted
    | SetStatus(status: string)                           // store.UpdateStatus
    | Erase                                               // store.Delete
    | Forget                                              // the mutex section that drops both debounce entries
    | Count(kind: string, delta: int)                     // the managed-resources gauge
    | Insert(kcliName: string, kind: string, status: string, createdAt: int)  // store.Put
    | Announce(kind: string, status: string)              // a handler's own publication

  datatype Task = Task(id: string, act: Act)

  datatype World = World(
    store: StoreState,
    pending: map<string, Pending>,
    last: map<string, int>,
    held: map<string, Event>,
    gauge: map<string, int>,
    log: seq<Record>)

  datatype Slice = Slice(
    id: string,
    row: Option<Entry>,
    pending: Option<Pending>,
    last: Option<int>,
    held: Option<Event>,
    notes: seq<Note>)

  /** The managed-resources gauge of one kind; a label never touched reads zero. */
  function Level(w: World, kind: string): int {
    if kind in w.gauge then w.gauge[kind] else 0
  }

  /** Whether the debounce window lets an event out at `now`. */
  predicate Open(cfg: Config, last: Option<int>, now: int) {
    last.None? || now - last.value >= cfg.window
  }

  function Step(cfg: Config, w: World, task: Task): World {
    var id := task.id;
    match task.act
    case Schedule(kind, status, tick) =>
      if Open(cfg, Lookup(w.last, id), tick.check) then
        w.(pending := w.pending - {id}, last := w.last[id := tick.stamp],
           held := w.held[id := Event(kind, status, tick.stamp)])
      else
        w.(pending := w.pending[id := Pending(kind, status, tick.schedule)], held := w.held - {id})
    case Flush(tick) =>
      if id in w.pending && Open(cfg, Lookup(w.last, id), tick.check) then
        w.(pending := w.pending - {id}, last := w.last[id := tick.stamp],
           held := w.held[id := Event(w.pending[id].kind, w.pending[id].status, tick.stamp)])
      else w
    case Emit =>
      if id in w.held then w.(held := w.held - {id}, log := w.log + [Record(id, Published(w.held[id]))]) else w
    case SetStatus(status) => w.(store := UpdateStatus(w.store, id, status))
    case Erase => w.(store := Delete(w.store, id))
    case Forget => w.(pending := w.pending - {id}, last := w.last - {id}, log := w.log + [Record(id, Forgotten)])
    case Count(kind, delta) =>
      w.(gauge := w.gauge[kind := Level(w, kind) + delta], log := w.log + [Record(id, Counted(kind, delta))])
    case Insert(kcliName, kind, status, createdAt) =>
      w.(store := Put(w.store, Entry(id, kcliName, kind, status, createdAt)),
         log := w.log + [Record(id, Stored(status))])
    case Announce(kind, status) => w.(log := w.log + [Record(id, Announced(kind, status))])
  }

  function StepSlice(cfg: Config, s: Slice, act: Act): Slice {
    match act
    case Schedule(kind, status, tick) =>
      if Open(cfg, s.last, tick.check) then
        s.(pending := None, last := Some(tick.stamp), held := Some(Event(kind, status, tick.stamp)))
      else
        s.(pending := Some(Pending(kind, status, tick.schedule)), held := None)
    case Flush(tick) =>
      if s.pending.Some? && Open(cfg, s.last, tick.check) then
        s.(pending := None, last := Some(tick.stamp),
           held := Some(Event(s.pending.value.kind, s.pending.value.status, tick.stamp)))
      else s
    case Emit =>
      if s.held.Some? then s.(held := None, notes := s.notes + [Published(s.held.value)]) else s
    case SetStatus(status) => if s.row.Some? then s.(row := Some(s.row.value.(status := status))) else s
    case Erase => s.(row := None)
    case Forget => s.(pending := None, last := None, notes := s.notes + [Forgotten])
    case Count(kind, delta) => s.(notes := s.notes + [Counted(kind, delta)])
    case Insert(kcliName, kind, status, createdAt) =>
      s.(row := Some(Entry(s.id, kcliName, kind, status, createdAt)), notes := s.notes + [Stored(status)])
    case Announce(kind, status) => s.(notes := s.notes + [Announced(kind, status)])
  }

  function Exec(cfg: Config, w: World, tasks: seq<Task>): World {
    if tasks == [] then w else Step(cfg, Exec(cfg, w, tasks[..|tasks| - 1]), tasks[|tasks| - 1])
  }

  function ExecSlice(cfg: Config, s: Slice, acts: seq<Act>): Slice {
    if acts == [] then s else StepSlice(cfg, ExecSlice(cfg, s, acts[..|acts| - 1]), acts[|acts| - 1])
  }

  /** The notes about one id, in order. */
  function Notes(log: seq<Record>, id: string): seq<Note> {
    if log == [] then []
    else
      var r := log[|log| - 1];
      Notes(log[..|log| - 1], id) + if r.id == id then [r.note] else []
  }

  /** The steps taken for one id, in order. */
  function Mine(tasks: seq<Task>, id: string): seq<Act> {
    if tasks == [] then []
    else
      var t := tasks[|tasks| - 1];
      Mine(tasks[..|tasks| - 1], id) + if t.id == id then [t.act] else []
  }

  function SliceOf(w: World, id: string): Slice {
    Slice(id, Lookup(w.store.rows, id), Lookup(w.pending, id), Lookup(w.last, id), Lookup(w.held, id),
          Notes(w.log, id))
  }

  // ---------- Sequencing ----------

  lemma {:induction false} ExecAppend(cfg: Config, w: World, a: seq<Task>, b: seq<Task>)
    ensures Exec(cfg, w, a + b) == Exec(cfg, Exec(cfg, w, a), b)
  {
    if b == [] {
      assert a + b == a;
    } else {
      assert (a + b)[..|a + b| - 1] == a + b[..|b| - 1];
      ExecAppend(cfg, w, a, b[..|b| - 1]);
    }
  }

  lemma {:induction false} ExecSliceAppend(cfg: Config, s: Slice, a: seq<Act>, b: seq<Act>)
    ensures ExecSlice(cfg, s, a + b) == ExecSlice(cfg, ExecSlice(cfg, s, a), b)
  {
    if b == [] {
      assert a + b == a;
    } else {
      assert (a + b)[..|a + b| - 1] == a + b[..|b| - 1];
      ExecSliceAppend(cfg, s, a, b[..|b| - 1]);
    }
  }

  lemma ExecSliceLast(cfg: Config, s: Slice, acts: seq<Act>, act: Act)
    ensures ExecSlice(cfg, s, acts + [act]) == StepSlice(cfg, ExecSlice(cfg, s, acts), act)
  {
    assert (acts + [act])[..|acts|] == acts;
  }

  lemma {:induction false} MineAppend(a: seq<Task>, b: seq<Task>, id: string)
    ensures Mine(a + b, id) == Mine(a, id) + Mine(b, id)
  {
    if b == [] {
      assert a + b == a;
    } else {
      assert (a + b)[..|a + b| - 1] == a + b[..|b| - 1];
      MineAppend(a, b[..|b| - 1], id);
    }
  }

  lemma MineLast(tasks: seq<Task>, t: Task, id: string)
    ensures Mine(tasks + [t], id) == if t.id == id then Mine(tasks, id) + [t.act] else Mine(tasks, id)
  {
    assert (tasks + [t])[..|tasks|] == tasks;
  }

  lemma NoneMine(id: string)
    ensures Mine([], id) == []
  {
  }

  lemma MineEnds(tasks: seq<Task>, id: string)
    requires tasks != []
    ensures var init, t := tasks[..|tasks| - 1], tasks[|tasks| - 1];
            Mine(tasks, id) == if t.id == id then Mine(init, id) + [t.act] else Mine(init, id)
  {
    assert tasks == tasks[..|tasks| - 1] + [tasks[|tasks| - 1]];
    MineLast(tasks[..|tasks| - 1], tasks[|tasks| - 1], id);
  }

  // ---------- Locality ----------

  /** Seen at one id, a step of that id does what `StepSlice` says and any other step does nothing. */
  ghost predicate Local(cfg: Config, w: World, task: Task, id: string) {
    SliceOf(Step(cfg, w, task), id)
    == if task.id == id then StepSlice(cfg, SliceOf(w, id), task.act) else SliceOf(w, id)
  }

  lemma ScheduleLocal(cfg: Config, w: World, task: Task, id: string)
    requires task.act.Schedule?
    ensures Local(cfg, w, task, id)
  {
  }

  lemma FlushLocal(cfg: Config, w: World, task: Task, id: string)
    requires task.act.Flush?
    ensures Local(cfg, w, task, id)
  {
  }

  lemma ForgetLocal(cfg: Config, w: World, task: Task, id: string)
    requires task.act.Forget?
    ensures Local(cfg, w, task, id)
  {
  }

  lemma SetStatusLocal(cfg: Config, w: World, task: Task, id: string)
    requires task.act.SetStatus?
    ensures Local(cfg, w, task, id)
  {
  }

  lemma EraseLocal(cfg: Config, w: World, task: Task, id: string)
    requires task.act.Erase?
    ensures Local(cfg, w, task, id)
  {
  }

  lemma InsertLocal(cfg: Config, w: World, task: Task, id: string)
    requires task.act.Insert?
    ensures Local(cfg, w, task, id)
  {
  }

  lemma EmitLocal(cfg: Config, w: World, task: Task, id: string)
    requires task.act.Emit?
    ensures Local(cfg, w, task, id)
  {
  }

  lemma CountLocal(cfg: Config, w: World, task: Task, id: string)
    requires task.act.Count?
    ensures Local(cfg, w, task, id)
  {
  }

  lemma AnnounceLocal(cfg: Config, w: World, task: Task, id: string)
    requires task.act.Announce?
    ensures Local(cfg, w, task, id)
  {
  }

  lemma StepLocal(cfg: Config, w: World, task: Task, id: string)
    ensures Local(cfg, w, task, id)
  {
    hide Local;
    match task.act {
      case Schedule(_, _, _) => ScheduleLocal(cfg, w, task, id);
      case Flush(_) => FlushLocal(cfg, w, task, id);
      case Emit => EmitLocal(cfg, w, task, id);
      case SetStatus(_) => SetStatusLocal(cfg, w, task, id);
      case Erase => EraseLocal(cfg, w, task, id);
      case Forget => ForgetLocal(cfg, w, task, id);
      case Count(_, _) => CountLocal(cfg, w, task, id);
      case Insert(_, _, _, _) => InsertLocal(cfg, w, task, id);
      case Announce(_, _) => AnnounceLocal(cfg, w, task, id);
    }
  }

  /** A run of the world, seen at one id, is the run of that id's slice under that id's steps. */
  lemma {:induction false} Locality(cfg: Config, w: World, tasks: seq<Task>, id: string)
    ensures SliceOf(Exec(cfg, w, tasks), id) == ExecSlice(cfg, SliceOf(w, id), Mine(tasks, id))
  {
    if tasks != [] {
      var init, task := tasks[..|tasks| - 1], tasks[|tasks| - 1];
      Locality(cfg, w, init, id);
      StepLocal(cfg, Exec(cfg, w, init), task, id);
      if task.id == id {
        assert Mine(tasks, id)[..|Mine(tasks, id)| - 1] == Mine(init, id);
      } else {
        assert Mine(tasks, id) == Mine(init, id);
      }
    }
  }

  // ---------- Interleavings ----------

  ghost predicate SameProjections(a: seq<Task>, b: seq<Task>) {
    forall id :: Mine(a, id) == Mine(b, id)
  }

  /** `c` merges `a` and `b`, keeping the order within each. */
  ghost predicate Shuffle(a: seq<Task>, b: seq<Task>, c: seq<Task>)
    decreases |c|
  {
    if c == [] then a == [] && b == []
    else
      var t, init := c[|c| - 1], c[..|c| - 1];
      || (a != [] && a[|a| - 1] == t && Shuffle(a[..|a| - 1], b, init))
      || (b != [] && b[|b| - 1] == t && Shuffle(a, b[..|b| - 1], init))
  }

  ghost predicate DisjointIds(a: seq<Task>, b: seq<Task>) {
    forall i, j :: 0 <= i < |a| && 0 <= j < |b| ==> a[i].id != b[j].id
  }

  lemma {:induction false} MineAbsent(tasks: seq<Task>, id: string)
    requires forall i :: 0 <= i < |tasks| ==> tasks[i].id != id
    ensures Mine(tasks, id) == []
  {
    if tasks != [] {
      MineAbsent(tasks[..|tasks| - 1], id);
    }
  }

  lemma {:induction false} ShuffleProjects(a: seq<Task>, b: seq<Task>, c: seq<Task>, id: string)
    requires Shuffle(a, b, c) && DisjointIds(a, b)
    ensures Mine(c, id) == Mine(a, id) + Mine(b, id)
    decreases |c|
  {
    hide Mine;
    if c != [] {
      var t, init := c[|c| - 1], c[..|c| - 1];
      MineEnds(c, id);
      if a != [] && a[|a| - 1] == t && Shuffle(a[..|a| - 1], b, init) {
        MineEnds(a, id);
        ShuffleProjects(a[..|a| - 1], b, init, id);
        if t.id == id {
          assert a[|a| - 1].id == id;
          MineAbsent(b, id);
        }
      } else {
        MineEnds(b, id);
        ShuffleProjects(a, b[..|b| - 1], init, id);
      }
    } else {
      NoneMine(id);
    }
  }

  function Delta(act: Act, kind: string): int {
    if act.Count? && act.kind == kind then act.delta else 0
  }

  function DeltaSum(tasks: seq<Task>, kind: string): int {
    if tasks == [] then 0 else DeltaSum(tasks[..|tasks| - 1], kind) + Delta(tasks[|tasks| - 1].act, kind)
  }

  lemma StepLevel(cfg: Config, w: World, task: Task, kind: string)
    ensures Level(Step(cfg, w, task), kind) == Level(w, kind) + Delta(task.act, kind)
  {
  }

  lemma {:induction false} ExecLevel(cfg: Config, w: World, tasks: seq<Task>, kind: string)
    ensures Level(Exec(cfg, w, tasks), kind) == Level(w, kind) + DeltaSum(tasks, kind)
  {
    hide Step, Level;
    if tasks != [] {
      ExecLevel(cfg, w, tasks[..|tasks| - 1], kind);
      StepLevel(cfg, Exec(cfg, w, tasks[..|tasks| - 1]), tasks[|tasks| - 1], kind);
    }
  }

  lemma {:induction false} DeltaSumAppend(a: seq<Task>, b: seq<Task>, kind: string)
    ensures DeltaSum(a + b, kind) == DeltaSum(a, kind) + DeltaSum(b, kind)
  {
    if b == [] {
      assert a + b == a;
    } else {
      assert (a + b)[..|a + b| - 1] == a + b[..|b| - 1];
      DeltaSumAppend(a, b[..|b| - 1], kind);
    }
  }

  lemma DeltaLast(tasks: seq<Task>, t: Task, kind: string)
    ensures DeltaSum(tasks + [t], kind) == DeltaSum(tasks, kind) + Delta(t.act, kind)
  {
    assert (tasks + [t])[..|tasks|] == tasks;
  }

  /** Where the last step of `id` stands, and what the steps look like without it. */
  lemma {:induction false} LastStep(tasks: seq<Task>, id: string) returns (k: nat)
    requires Mine(tasks, id) != []
    ensures k < |tasks| && tasks[k].id == id && tasks[k].act == Mine(tasks, id)[|Mine(tasks, id)| - 1]
    ensures Mine(tasks[..k] + tasks[k + 1..], id) == Mine(tasks, id)[..|Mine(tasks, id)| - 1]
    ensures forall other :: other != id ==> Mine(tasks[..k] + tasks[k + 1..], other) == Mine(tasks, other)
    ensures forall kind :: DeltaSum(tasks, kind)
                           == DeltaSum(tasks[..k] + tasks[k + 1..], kind) + Delta(tasks[k].act, kind)
  {
    NoneMine(id);
    hide Delta, Mine, DeltaSum;
    var init, t := tasks[..|tasks| - 1], tasks[|tasks| - 1];
    assert tasks == init + [t];
    forall other
      ensures Mine(tasks, other) == if t.id == other then Mine(init, other) + [t.act] else Mine(init, other)
    {
      MineLast(init, t, other);
    }
    forall kind
      ensures DeltaSum(tasks, kind) == DeltaSum(init, kind) + Delta(t.act, kind)
    {
      DeltaLast(init, t, kind);
    }
    if t.id == id {
      k := |tasks| - 1;
      assert tasks[..k] + tasks[k + 1..] == init;
    } else {
      k := LastStep(init, id);
      var rest := init[..k] + init[k + 1..];
      assert tasks[..k] + tasks[k + 1..] == rest + [t];
      forall other
        ensures Mine(rest + [t], other) == if t.id == other then Mine(rest, other) + [t.act] else Mine(rest, other)
      {
        MineLast(rest, t, other);
      }
      forall kind
        ensures DeltaSum(rest + [t], kind) == DeltaSum(rest, kind) + Delta(t.act, kind)
      {
        DeltaLast(rest, t, kind);
      }
    }
  }

  /** Runs with the same projections move every gauge alike. */
  lemma {:induction false} ProjectionsFixGauges(a: seq<Task>, b: seq<Task>, kind: string)
    requires SameProjections(a, b)
    ensures DeltaSum(a, kind) == DeltaSum(b, kind)
    decreases |a|
  {
    if a == [] {
      if b != [] {
        assert Mine(b, b[|b| - 1].id) == Mine(a, b[|b| - 1].id);
      }
    } else {
      var init, t := a[..|a| - 1], a[|a| - 1];
      assert Mine(a, t.id) == Mine(init, t.id) + [t.act];
      var k := LastStep(b, t.id);
      var rest := b[..k] + b[k + 1..];
      forall id
        ensures Mine(init, id) == Mine(rest, id)
      {
        if id == t.id {
          assert Mine(init, id) == Mine(a, id)[..|Mine(a, id)| - 1];
        } else {
          assert Mine(init, id) == Mine(a, id);
        }
      }
      ProjectionsFixGauges(init, rest, kind);
    }
  }

  ghost predicate NoInsert(tasks: seq<Task>) {
    forall i :: 0 <= i < |tasks| ==> !tasks[i].act.Insert?
  }

  /** `rows` came from `before` without any Put: ids may be gone and statuses changed, nothing else. */
  ghost predicate Shrunk(before: map<string, Entry>, rows: map<string, Entry>) {
    && rows.Keys <= before.Keys
    && forall id :: id in rows ==> rows[id] == before[id].(status := rows[id].status)
  }

  function NamesLeft(names: map<string, string>, before: map<string, Entry>, rows: map<string, Entry>)
    : map<string, string>
  {
    names - set id | id in before && id !in rows :: before[id].kcliName
  }

  /** A step other than a Put changes no index entry and no row's identity, except that Erase takes both. */
  lemma StepStore(cfg: Config, w: World, task: Task)
    requires !task.act.Insert?
    ensures var s, s' := w.store, Step(cfg, w, task).store;
            && s'.rows.Keys == (if task.act.Erase? then s.rows.Keys - {task.id} else s.rows.Keys)
            && (forall id :: id in s'.rows ==> s'.rows[id] == s.rows[id].(status := s'.rows[id].status))
            && s'.names == if task.act.Erase? && task.id in s.rows then s.names - {s.rows[task.id].kcliName}
                           else s.names
  {
    hide Lookup, Open, Level;
    if task.act.Erase? {
    } else if task.act.SetStatus? {
    } else {
    }
  }

  lemma NamesLeftErase(names: map<string, string>, before: map<string, Entry>, rows: map<string, Entry>,
                       after: map<string, Entry>, id: string)
    requires Shrunk(before, rows) && after.Keys == rows.Keys - {id} && id in rows
    ensures NamesLeft(names, before, rows) - {rows[id].kcliName} == NamesLeft(names, before, after)
  {
  }

  lemma NamesLeftSame(names: map<string, string>, before: map<string, Entry>, rows: map<string, Entry>,
                      after: map<string, Entry>)
    requires after.Keys == rows.Keys
    ensures NamesLeft(names, before, rows) == NamesLeft(names, before, after)
    ensures NamesLeft(names, before, before) == names
  {
  }

  /** Without Puts, rows only shrink and the index loses exactly the names of the rows that went. */
  lemma {:induction false} IndexFollowsRows(cfg: Config, w: World, tasks: seq<Task>)
    requires NoInsert(tasks)
    ensures Shrunk(w.store.rows, Exec(cfg, w, tasks).store.rows)
    ensures Exec(cfg, w, tasks).store.names
            == NamesLeft(w.store.names, w.store.rows, Exec(cfg, w, tasks).store.rows)
  {
    hide Step, NamesLeft;
    if tasks != [] {
      var init, t := tasks[..|tasks| - 1], tasks[|tasks| - 1];
      IndexFollowsRows(cfg, w, init);
      var before, mid := w.store.rows, Exec(cfg, w, init).store.rows;
      var after := Exec(cfg, w, tasks).store.rows;
      StepStore(cfg, Exec(cfg, w, init), t);
      if t.act.Erase? && t.id in mid {
        NamesLeftErase(w.store.names, before, mid, after, t.id);
      } else {
        NamesLeftSame(w.store.names, before, mid, after);
      }
    } else {
      NamesLeftSame(w.store.names, w.store.rows, w.store.rows, w.store.rows);
    }
  }

  /** Equal up to how the log interleaves the notes of different ids. */
  ghost predicate Same(a: World, b: World) {
    && a.store == b.store && a.pending == b.pending && a.last == b.last && a.held == b.held
    && (forall kind :: Level(a, kind) == Level(b, kind))
    && (forall id :: Notes(a.log, id) == Notes(b.log, id))
  }

  lemma SlicesFixMaps(a: World, b: World)
    requires forall id :: SliceOf(a, id) == SliceOf(b, id)
    ensures a.store.rows == b.store.rows && a.pending == b.pending && a.last == b.last && a.held == b.held
    ensures forall id :: Notes(a.log, id) == Notes(b.log, id)
  {
    forall id
      ensures Lookup(a.store.rows, id) == Lookup(b.store.rows, id)
      ensures Lookup(a.pending, id) == Lookup(b.pending, id)
      ensures Lookup(a.last, id) == Lookup(b.last, id)
      ensures Lookup(a.held, id) == Lookup(b.held, id)
      ensures Notes(a.log, id) == Notes(b.log, id)
    {
      assert SliceOf(a, id) == SliceOf(b, id);
    }
    LookupFixes(a.store.rows, b.store.rows);
    LookupFixes(a.pending, b.pending);
    LookupFixes(a.last, b.last);
    LookupFixes(a.held, b.held);
  }

  lemma LookupFixes<V>(a: map<string, V>, b: map<string, V>)
    requires forall id :: Lookup(a, id) == Lookup(b, id)
    ensures a == b
  {
    forall id
      ensures id in a <==> id in b
      ensures id in a && id in b ==> a[id] == b[id]
    {
      assert Lookup(a, id) == Lookup(b, id);
    }
  }

  /** Steps that agree id by id reach the same state, whatever their interleaving. */
  lemma ProjectionsDecide(cfg: Config, w: World, a: seq<Task>, b: seq<Task>)
    requires SameProjections(a, b) && NoInsert(a) && NoInsert(b)
    ensures Same(Exec(cfg, w, a), Exec(cfg, w, b))
  {
    var u, v := Exec(cfg, w, a), Exec(cfg, w, b);
    forall id
      ensures SliceOf(u, id) == SliceOf(v, id)
    {
      Locality(cfg, w, a, id);
      Locality(cfg, w, b, id);
    }
    SlicesFixMaps(u, v);
    IndexFollowsRows(cfg, w, a);
    IndexFollowsRows(cfg, w, b);
    forall kind
      ensures Level(u, kind) == Level(v, kind)
    {
      ExecLevel(cfg, w, a, kind);
      ExecLevel(cfg, w, b, kind);
      ProjectionsFixGauges(a, b, kind);
    }
  }

  lemma {:induction false} ShuffleKeepsNoInsert(a: seq<Task>, b: seq<Task>, c: seq<Task>)
    requires Shuffle(a, b, c) && NoInsert(a) && NoInsert(b)
    ensures NoInsert(c)
    decreases |c|
  {
    if c != [] {
      var t, init := c[|c| - 1], c[..|c| - 1];
      if a != [] && a[|a| - 1] == t && Shuffle(a[..|a| - 1], b, init) {
        ShuffleKeepsNoInsert(a[..|a| - 1], b, init);
      } else {
        ShuffleKeepsNoInsert(a, b[..|b| - 1], init);
      }
    }
  }

  /** Two threads working on different ids: every interleaving ends as running one after the other. */
  lemma Interleavings(cfg: Config, w: World, a: seq<Task>, b: seq<Task>, c: seq<Task>)
    requires Shuffle(a, b, c) && DisjointIds(a, b) && NoInsert(a) && NoInsert(b)
    ensures Same(Exec(cfg, w, c), Exec(cfg, w, a + b))
  {
    forall id
      ensures Mine(c, id) == Mine(a + b, id)
    {
      ShuffleProjects(a, b, c, id);
      MineAppend(a, b, id);
    }
    ShuffleKeepsNoInsert(a, b, c);
    ProjectionsDecide(cfg, w, c, a + b);
  }
}
