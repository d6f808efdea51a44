/** One monitor poll as a set of steps, and what it amounts to for each id. */
module Poll {
  import opened Resource
  import opened StatusMap
  import opened StoreModel
  import opened Machine

  /** What a poll sees: kweb's VMs and clusters by name (None when that pass is skipped), and the clock per id. */
  datatype View = View(
    vms: Option<map<string, string>>,    // kcli name to kweb status
    clusters: Option<map<string, bool>>, // kcli name to "has nodes"
    tick: string -> Tick,
    flush: string -> Tick)

  datatype Verdict = Keep | Remove | Become(status: string)

  function VmVerdict(e: Entry, vms: map<string, string>, now: int): Verdict {
    if e.kcliName !in vms then
      if Leaving(e.status) then Keep else Remove
    else
      var status := MapVmStatus(vms[e.kcliName], now - e.createdAt);
      if status != e.status then Become(status) else Keep
  }

  function ClusterVerdict(cfg: Config, e: Entry, clusters: map<string, bool>, now: int): Verdict {
    if e.kcliName !in clusters then
      if e.status == CREATING && now - e.createdAt > cfg.createTimeout then Become(ERROR)
      else if !Leaving(e.status) && e.status != CREATING then Remove
      else Keep
    else
      var status := MapClusterStatus(clusters[e.kcliName], now - e.createdAt, cfg.createTimeout);
      if status != e.status then Become(status) else Keep
  }

  /** What the poll decides about a row it listed. */
  function Decide(cfg: Config, e: Entry, view: View): Verdict {
    var now := view.tick(e.id).observe;
    if e.kind == VM && view.vms.Some? then VmVerdict(e, view.vms.value, now)
    else if e.kind == CLUSTER && view.clusters.Some? then ClusterVerdict(cfg, e, view.clusters.value, now)
    else Keep
  }

  /** The atomic steps that carry out a verdict, in code order. */
  function Carry(kind: string, verdict: Verdict, tick: Tick): seq<Act> {
    match verdict
    case Keep => []
    case Remove => [Schedule(kind, DELETED, tick), Emit, Erase, Count(kind, -1), Forget]
    case Become(status) => [Schedule(kind, status, tick), Emit, SetStatus(status)]
  }

  /** The steps of a removal and of a change, in front of whatever follows. */
  lemma CarryAnd(kind: string, status: string, tick: Tick, rest: seq<Act>)
    ensures Carry(kind, Remove, tick) + rest
            == [Schedule(kind, DELETED, tick)] + ([Emit] + ([Erase] + ([Count(kind, -1)] + ([Forget] + rest))))
    ensures Carry(kind, Become(status), tick) + rest
            == [Schedule(kind, status, tick)] + ([Emit] + ([SetStatus(status)] + rest))
  {
  }

  function TasksOf(id: string, acts: seq<Act>): seq<Task> {
    seq(|acts|, i requires 0 <= i < |acts| => Task(id, acts[i]))
  }

  function RowActs(cfg: Config, e: Entry, view: View): seq<Act> {
    Carry(e.kind, Decide(cfg, e, view), view.tick(e.id))
  }

  /** One pass over listed rows. */
  function PassTasks(cfg: Config, entries: seq<Entry>, view: View): seq<Task> {
    if entries == [] then []
    else
      var e := entries[|entries| - 1];
      PassTasks(cfg, entries[..|entries| - 1], view) + TasksOf(e.id, RowActs(cfg, e, view))
  }

  /** flushPending over the ids it takes out, in some order: all extractions under the lock, then all publications. */
  function FlushTasks(ids: seq<string>, view: View): seq<Task> {
    Extractions(ids, view) + Publications(ids)
  }

  function Extractions(ids: seq<string>, view: View): seq<Task> {
    seq(|ids|, i requires 0 <= i < |ids| => Task(ids[i], Flush(view.flush(ids[i]))))
  }

  function Publications(ids: seq<string>): seq<Task> {
    seq(|ids|, i requires 0 <= i < |ids| => Task(ids[i], Emit))
  }

  /** A poll as it may run: the order of both listings, the interleaving of both passes, the flush order. */
  datatype Order = Order(vmRows: seq<Entry>, clusterRows: seq<Entry>, body: seq<Task>, flushIds: seq<string>)

  function PollTasks(view: View, order: Order): seq<Task> {
    order.body + FlushTasks(order.flushIds, view)
  }

  /** The closing flush takes an id out exactly when it is pending and its window has elapsed. */
  predicate DueForFlush(cfg: Config, w: World, view: View, id: string) {
    id in w.pending && Open(cfg, Lookup(w.last, id), view.flush(id).check)
  }

  ghost predicate LegalPoll(cfg: Config, w: World, view: View, order: Order) {
    && (if view.vms.Some? then Lists(order.vmRows, OfKind(w.store.rows, VM)) else order.vmRows == [])
    && (if view.clusters.Some? then Lists(order.clusterRows, OfKind(w.store.rows, CLUSTER))
        else order.clusterRows == [])
    && Shuffle(PassTasks(cfg, order.vmRows, view), PassTasks(cfg, order.clusterRows, view), order.body)
    && Distinct(order.flushIds)
    && (forall id :: id in order.flushIds <==> DueForFlush(cfg, Exec(cfg, w, order.body), view, id))
  }

  // ---------- A poll, seen at one id ----------

  function DecideRow(cfg: Config, row: Option<Entry>, view: View): seq<Act> {
    if row.Some? then RowActs(cfg, row.value, view) else []
  }

  lemma {:induction false} MineTasksOf(id: string, acts: seq<Act>, other: string)
    ensures Mine(TasksOf(id, acts), other) == if id == other then acts else []
  {
    hide Mine;
    if acts != [] {
      var init, last := acts[..|acts| - 1], acts[|acts| - 1];
      MineTasksOf(id, init, other);
      assert TasksOf(id, acts) == TasksOf(id, init) + [Task(id, last)];
      MineLast(TasksOf(id, init), Task(id, last), other);
      assert init + [last] == acts;
    } else {
      assert TasksOf(id, acts) == [];
      NoneMine(other);
    }
  }

  lemma {:induction false} MinePass(cfg: Config, entries: seq<Entry>, view: View, rows: map<string, Entry>, id: string)
    requires Keyed(rows)
    requires forall i :: 0 <= i < |entries| ==> entries[i].id in rows && rows[entries[i].id] == entries[i]
    requires forall i, j :: 0 <= i < j < |entries| ==> entries[i].id != entries[j].id
    ensures Mine(PassTasks(cfg, entries, view), id)
            == if id in rows && rows[id] in entries then RowActs(cfg, rows[id], view) else []
  {
    if entries != [] {
      var init, e := entries[..|entries| - 1], entries[|entries| - 1];
      MinePass(cfg, init, view, rows, id);
      MineAppend(PassTasks(cfg, init, view), TasksOf(e.id, RowActs(cfg, e, view)), id);
      MineTasksOf(e.id, RowActs(cfg, e, view), id);
      if e.id == id {
        assert rows[id] !in init;
      } else if id in rows {
        assert rows[id] in entries <==> rows[id] in init;
      }
    }
  }

  lemma {:induction false} PassTaskIds(cfg: Config, entries: seq<Entry>, view: View, i: int)
    requires 0 <= i < |PassTasks(cfg, entries, view)|
    ensures exists j :: 0 <= j < |entries| && PassTasks(cfg, entries, view)[i].id == entries[j].id
    ensures !PassTasks(cfg, entries, view)[i].act.Insert?
  {
    var init, e := entries[..|entries| - 1], entries[|entries| - 1];
    var before := PassTasks(cfg, init, view);
    if i < |before| {
      PassTaskIds(cfg, init, view, i);
      var j :| 0 <= j < |init| && before[i].id == init[j].id;
      assert entries[j] == init[j];
    } else {
      assert PassTasks(cfg, entries, view)[i] == TasksOf(e.id, RowActs(cfg, e, view))[i - |before|];
      assert entries[|entries| - 1].id == e.id;
    }
  }

  /** The two passes of a poll work on different ids and never insert. */
  lemma PassesDisjoint(cfg: Config, w: World, view: View, order: Order)
    requires LegalPoll(cfg, w, view, order)
    ensures DisjointIds(PassTasks(cfg, order.vmRows, view), PassTasks(cfg, order.clusterRows, view))
    ensures NoInsert(PassTasks(cfg, order.vmRows, view)) && NoInsert(PassTasks(cfg, order.clusterRows, view))
  {
    var a, b := PassTasks(cfg, order.vmRows, view), PassTasks(cfg, order.clusterRows, view);
    forall i, j | 0 <= i < |a| && 0 <= j < |b|
      ensures a[i].id != b[j].id
    {
      PassTaskIds(cfg, order.vmRows, view, i);
      PassTaskIds(cfg, order.clusterRows, view, j);
    }
    forall i | 0 <= i < |a|
      ensures !a[i].act.Insert?
    {
      PassTaskIds(cfg, order.vmRows, view, i);
    }
    forall i | 0 <= i < |b|
      ensures !b[i].act.Insert?
    {
      PassTaskIds(cfg, order.clusterRows, view, i);
    }
  }

  /** Seen at one id, a pass over the rows of a kind works on that id's row if it has that kind. */
  lemma MineKind(cfg: Config, entries: seq<Entry>, view: View, rows: map<string, Entry>, kind: string, id: string)
    requires Keyed(rows) && Lists(entries, OfKind(rows, kind))
    ensures Mine(PassTasks(cfg, entries, view), id)
            == if id in rows && rows[id].kind == kind then RowActs(cfg, rows[id], view) else []
  {
    hide RowActs, PassTasks, Mine;
    MinePass(cfg, entries, view, rows, id);
    if id in rows {
      assert rows[id].kind == kind ==> id in OfKind(rows, kind);
    }
  }

  /** A row whose pass is skipped, or whose kind no pass handles, is left alone. */
  lemma SkippedRow(cfg: Config, e: Entry, view: View)
    requires (e.kind == VM ==> view.vms.None?) && (e.kind == CLUSTER ==> view.clusters.None?)
    ensures RowActs(cfg, e, view) == []
  {
  }

  lemma MineNoTasks(cfg: Config, view: View, id: string)
    ensures Mine(PassTasks(cfg, [], view), id) == []
  {
  }

  /** Seen at one id, the two passes do what was decided about that id's row. */
  lemma MineBody(cfg: Config, w: World, view: View, order: Order, id: string)
    requires LegalPoll(cfg, w, view, order) && Keyed(w.store.rows)
    ensures Mine(order.body, id) == DecideRow(cfg, Lookup(w.store.rows, id), view)
  {
    hide RowActs, PassTasks, Mine, Exec, DueForFlush, Lists, OfKind;
    var rows := w.store.rows;
    PassesDisjoint(cfg, w, view, order);
    ShuffleProjects(PassTasks(cfg, order.vmRows, view), PassTasks(cfg, order.clusterRows, view), order.body, id);
    MineNoTasks(cfg, view, id);
    if view.vms.Some? {
      MineKind(cfg, order.vmRows, view, rows, VM, id);
    }
    if view.clusters.Some? {
      MineKind(cfg, order.clusterRows, view, rows, CLUSTER, id);
    }
    assert VM != CLUSTER;
    if id in rows && (rows[id].kind == VM ==> view.vms.None?) && (rows[id].kind == CLUSTER ==> view.clusters.None?) {
      SkippedRow(cfg, rows[id], view);
    }
  }

  lemma DistinctLast(ids: seq<string>)
    requires Distinct(ids) && ids != []
    ensures var init, last := ids[..|ids| - 1], ids[|ids| - 1];
            Distinct(init) && last !in init && forall id :: id in ids <==> id in init || id == last
  {
    assert ids == ids[..|ids| - 1] + [ids[|ids| - 1]];
  }

  lemma {:induction false} MineExtractions(ids: seq<string>, view: View, id: string)
    requires Distinct(ids)
    ensures Mine(Extractions(ids, view), id) == if id in ids then [Flush(view.flush(id))] else []
  {
    hide Mine, Distinct;
    if ids != [] {
      var init, last := ids[..|ids| - 1], ids[|ids| - 1];
      DistinctLast(ids);
      MineExtractions(init, view, id);
      assert Extractions(ids, view) == Extractions(init, view) + [Task(last, Flush(view.flush(last)))];
      MineLast(Extractions(init, view), Task(last, Flush(view.flush(last))), id);
    } else {
      NoneMine(id);
    }
  }

  lemma {:induction false} MinePublications(ids: seq<string>, id: string)
    requires Distinct(ids)
    ensures Mine(Publications(ids), id) == if id in ids then [Emit] else []
  {
    hide Mine, Distinct;
    if ids != [] {
      var init, last := ids[..|ids| - 1], ids[|ids| - 1];
      DistinctLast(ids);
      MinePublications(init, id);
      assert Publications(ids) == Publications(init) + [Task(last, Emit)];
      MineLast(Publications(init), Task(last, Emit), id);
    } else {
      NoneMine(id);
    }
  }

  lemma MineFlush(ids: seq<string>, view: View, id: string)
    requires Distinct(ids)
    ensures Mine(FlushTasks(ids, view), id) == if id in ids then [Flush(view.flush(id)), Emit] else []
  {
    MineExtractions(ids, view, id);
    MinePublications(ids, id);
    MineAppend(Extractions(ids, view), Publications(ids), id);
  }

  lemma {:induction false} ExecSliceCons(cfg: Config, s: Slice, act: Act, rest: seq<Act>)
    ensures ExecSlice(cfg, s, [act] + rest) == ExecSlice(cfg, StepSlice(cfg, s, act), rest)
  {
    ExecSliceAppend(cfg, s, [act], rest);
    assert ExecSlice(cfg, s, [act]) == StepSlice(cfg, ExecSlice(cfg, s, []), act);
  }

  /** An id's turn in the closing flush of a poll. */
  function Flushed(cfg: Config, s: Slice, tick: Tick): Slice {
    if s.pending.Some? && Open(cfg, s.last, tick.check) then
      var event := Event(s.pending.value.kind, s.pending.value.status, tick.stamp);
      s.(pending := None, last := Some(tick.stamp), notes := s.notes + [Published(event)])
    else s
  }

  /** What a poll's passes do to one id's slice. */
  function Reviewed(cfg: Config, s: Slice, view: View): Slice {
    if s.row.None? then s
    else
      var e, tick := s.row.value, view.tick(s.id);
      match Decide(cfg, e, view)
      case Keep => s
      case Remove =>
        var told := if Open(cfg, s.last, tick.check) then [Published(Event(e.kind, DELETED, tick.stamp))] else [];
        s.(row := None, pending := None, last := None, notes := s.notes + told + [Counted(e.kind, -1)] + [Forgotten])
      case Become(status) =>
        var changed := s.(row := Some(e.(status := status)));
        if Open(cfg, s.last, tick.check) then
          changed.(pending := None, last := Some(tick.stamp),
                   notes := s.notes + [Published(Event(e.kind, status, tick.stamp))])
        else
          changed.(pending := Some(Pending(e.kind, status, tick.schedule)))
  }

  /** What a whole poll does to one id's slice. */
  function Polled(cfg: Config, s: Slice, view: View): Slice {
    Flushed(cfg, Reviewed(cfg, s, view), view.flush(s.id))
  }

  lemma RemoveSteps(cfg: Config, s: Slice, kind: string, tick: Tick)
    ensures ExecSlice(cfg, s, Carry(kind, Remove, tick))
            == StepSlice(cfg, StepSlice(cfg, StepSlice(cfg, StepSlice(cfg, StepSlice(cfg, s,
                 Schedule(kind, DELETED, tick)), Emit), Erase), Count(kind, -1)), Forget)
  {
    hide StepSlice, ExecSlice;
    var a, b, c, d, e := Schedule(kind, DELETED, tick), Emit, Erase, Count(kind, -1), Forget;
    var s1 := StepSlice(cfg, s, a);
    var s2 := StepSlice(cfg, s1, b);
    var s3 := StepSlice(cfg, s2, c);
    var s4 := StepSlice(cfg, s3, d);
    assert Carry(kind, Remove, tick) == [a] + ([b] + ([c] + ([d] + ([e] + []))));
    ExecSliceCons(cfg, s, a, [b] + ([c] + ([d] + ([e] + []))));
    ExecSliceCons(cfg, s1, b, [c] + ([d] + ([e] + [])));
    ExecSliceCons(cfg, s2, c, [d] + ([e] + []));
    ExecSliceCons(cfg, s3, d, [e] + []);
    ExecSliceCons(cfg, s4, e, []);
    NoActs(cfg, StepSlice(cfg, s4, e));
  }

  lemma ReportSteps(cfg: Config, s: Slice, kind: string, status: string, tick: Tick)
    ensures ExecSlice(cfg, s, Carry(kind, Become(status), tick))
            == StepSlice(cfg, StepSlice(cfg, StepSlice(cfg, s, Schedule(kind, status, tick)), Emit), SetStatus(status))
  {
    hide StepSlice, ExecSlice;
    var a, b, c := Schedule(kind, status, tick), Emit, SetStatus(status);
    var s1 := StepSlice(cfg, s, a);
    var s2 := StepSlice(cfg, s1, b);
    assert Carry(kind, Become(status), tick) == [a] + ([b] + ([c] + []));
    ExecSliceCons(cfg, s, a, [b] + ([c] + []));
    ExecSliceCons(cfg, s1, b, [c] + []);
    ExecSliceCons(cfg, s2, c, []);
    NoActs(cfg, StepSlice(cfg, s2, c));
  }

  lemma NoActs(cfg: Config, s: Slice)
    ensures ExecSlice(cfg, s, []) == s
  {
  }

  lemma VisitedByActs(cfg: Config, s: Slice, view: View)
    requires s.held.None? && (s.row.Some? ==> s.row.value.id == s.id)
    ensures ExecSlice(cfg, s, DecideRow(cfg, s.row, view)) == Reviewed(cfg, s, view)
  {
    hide ExecSlice, Decide, Carry;
    if s.row.Some? {
      var e, tick := s.row.value, view.tick(s.id);
      match Decide(cfg, e, view) {
        case Keep => KeepDoesNothing(e.kind, tick); NoActs(cfg, s);
        case Remove => RemoveSteps(cfg, s, e.kind, tick);
        case Become(status) => ReportSteps(cfg, s, e.kind, status, tick);
      }
    } else {
      NoActs(cfg, s);
    }
  }

  lemma KeepDoesNothing(kind: string, tick: Tick)
    ensures Carry(kind, Keep, tick) == []
  {
  }

  lemma FlushedByActs(cfg: Config, s: Slice, tick: Tick)
    requires s.held.None?
    ensures ExecSlice(cfg, s, [Flush(tick), Emit]) == Flushed(cfg, s, tick)
  {
    assert [Flush(tick), Emit] == [Flush(tick)] + ([Emit] + []);
    ExecSliceCons(cfg, s, Flush(tick), [Emit] + []);
    ExecSliceCons(cfg, StepSlice(cfg, s, Flush(tick)), Emit, []);
  }

  lemma DueAtId(cfg: Config, w: World, view: View, id: string)
    ensures DueForFlush(cfg, w, view, id)
            <==> SliceOf(w, id).pending.Some? && Open(cfg, SliceOf(w, id).last, view.flush(id).check)
  {
  }

  /** Whether the closing flush takes this id out. */
  predicate FlushDue(cfg: Config, s: Slice, view: View) {
    s.pending.Some? && Open(cfg, s.last, view.flush(s.id).check)
  }

  /** The steps a poll takes for one id: its row's verdict carried out, and a flush if an event is then due. */
  function PollSteps(cfg: Config, s: Slice, view: View): seq<Act> {
    DecideRow(cfg, s.row, view)
    + if FlushDue(cfg, Reviewed(cfg, s, view), view) then [Flush(view.flush(s.id)), Emit] else []
  }

  lemma PollStepsPoll(cfg: Config, s: Slice, view: View)
    requires s.held.None? && (s.row.Some? ==> s.row.value.id == s.id)
    ensures ExecSlice(cfg, s, PollSteps(cfg, s, view)) == Polled(cfg, s, view)
  {
    hide ExecSlice, DecideRow;
    VisitedByActs(cfg, s, view);
    var mid := Reviewed(cfg, s, view);
    if FlushDue(cfg, mid, view) {
      ExecSliceAppend(cfg, s, DecideRow(cfg, s.row, view), [Flush(view.flush(s.id)), Emit]);
      FlushedByActs(cfg, mid, view.flush(s.id));
    } else {
      assert DecideRow(cfg, s.row, view) + [] == DecideRow(cfg, s.row, view);
    }
  }

  /** Whatever the listing order, interleaving and flush order, these are the poll's steps for an id. */
  lemma MinePoll(cfg: Config, w: World, view: View, order: Order, id: string)
    requires LegalPoll(cfg, w, view, order) && Keyed(w.store.rows) && w.held == map[]
    ensures Mine(PollTasks(view, order), id) == PollSteps(cfg, SliceOf(w, id), view)
  {
    hide Exec, Mine, DecideRow, FlushTasks, DueForFlush, Shuffle;
    var s := SliceOf(w, id);
    Locality(cfg, w, order.body, id);
    MineBody(cfg, w, view, order, id);
    VisitedByActs(cfg, s, view);
    MineAppend(order.body, FlushTasks(order.flushIds, view), id);
    MineFlush(order.flushIds, view, id);
    DueAtId(cfg, Exec(cfg, w, order.body), view, id);
  }

  /** Whatever the listing order, interleaving and flush order, a poll turns each slice into `Polled`. */
  lemma PollAtId(cfg: Config, w: World, view: View, order: Order, id: string)
    requires LegalPoll(cfg, w, view, order) && Keyed(w.store.rows) && w.held == map[]
    ensures SliceOf(Exec(cfg, w, PollTasks(view, order)), id) == Polled(cfg, SliceOf(w, id), view)
  {
    hide Exec, Mine, LegalPoll, PollTasks, PollSteps, ExecSlice, Polled;
    Locality(cfg, w, PollTasks(view, order), id);
    MinePoll(cfg, w, view, order, id);
    PollStepsPoll(cfg, SliceOf(w, id), view);
  }

  lemma SliceParts(w: World, id: string)
    ensures SliceOf(w, id).row == Lookup(w.store.rows, id)
    ensures SliceOf(w, id).pending == Lookup(w.pending, id)
    ensures SliceOf(w, id).held == Lookup(w.held, id)
  {
  }

  lemma PolledShape(cfg: Config, s: Slice, view: View)
    requires s.held.None? && (s.row.Some? ==> s.row.value.id == s.id)
    ensures Polled(cfg, s, view).held.None?
    ensures Polled(cfg, s, view).row.Some? ==> Polled(cfg, s, view).row.value.id == s.id
  {
  }

  /** A poll leaves nothing half published and every row under its own id. */
  lemma PollKeepsShape(cfg: Config, w: World, view: View, order: Order)
    requires LegalPoll(cfg, w, view, order) && Keyed(w.store.rows) && w.held == map[]
    ensures Exec(cfg, w, PollTasks(view, order)).held == map[]
    ensures Keyed(Exec(cfg, w, PollTasks(view, order)).store.rows)
  {
    hide Polled, PollTasks, LegalPoll;
    var w' := Exec(cfg, w, PollTasks(view, order));
    forall id
      ensures id !in w'.held
      ensures id in w'.store.rows ==> w'.store.rows[id].id == id
    {
      PollAtId(cfg, w, view, order, id);
      PolledShape(cfg, SliceOf(w, id), view);
      SliceParts(w', id);
    }
  }

  /**
   Interleaving independence: for one view of kweb and one set of clock readings, every listing order,
   every interleaving of the VM and cluster passes and every flush order reach the same rows, index,
   debounce maps and gauges, and the same sequence of notes about each id.
  */
  lemma PollOrderIrrelevant(cfg: Config, w: World, view: View, a: Order, b: Order)
    requires LegalPoll(cfg, w, view, a) && LegalPoll(cfg, w, view, b) && Keyed(w.store.rows)
    ensures Same(Exec(cfg, w, PollTasks(view, a)), Exec(cfg, w, PollTasks(view, b)))
  {
    forall id
      ensures Mine(a.body, id) == Mine(b.body, id)
    {
      MineBody(cfg, w, view, a, id);
      MineBody(cfg, w, view, b, id);
    }
    BodyNoInsert(cfg, w, view, a);
    BodyNoInsert(cfg, w, view, b);
    ProjectionsDecide(cfg, w, a.body, b.body);
    forall id
      ensures Mine(PollTasks(view, a), id) == Mine(PollTasks(view, b), id)
    {
      assert id in a.flushIds <==> id in b.flushIds;
      MineAppend(a.body, FlushTasks(a.flushIds, view), id);
      MineAppend(b.body, FlushTasks(b.flushIds, view), id);
      MineFlush(a.flushIds, view, id);
      MineFlush(b.flushIds, view, id);
    }
    ProjectionsDecide(cfg, w, PollTasks(view, a), PollTasks(view, b));
  }

  lemma BodyNoInsert(cfg: Config, w: World, view: View, order: Order)
    requires LegalPoll(cfg, w, view, order)
    ensures NoInsert(order.body) && NoInsert(PollTasks(view, order))
  {
    PassesDisjoint(cfg, w, view, order);
    ShuffleKeepsNoInsert(PassTasks(cfg, order.vmRows, view), PassTasks(cfg, order.clusterRows, view), order.body);
  }

  /**
   Either pass may list its rows late: however far the other pass has got, the rows of its own
   kind are still those the poll started with.
  */
  lemma ListingStable(cfg: Config, w: World, view: View, other: seq<Entry>, k: nat, kind: string)
    requires k <= |PassTasks(cfg, other, view)|
    requires forall i :: 0 <= i < |other| ==> other[i].id in w.store.rows && w.store.rows[other[i].id].kind != kind
    ensures OfKind(Exec(cfg, w, PassTasks(cfg, other, view)[..k]).store.rows, kind) == OfKind(w.store.rows, kind)
  {
    var tasks := PassTasks(cfg, other, view)[..k];
    var w' := Exec(cfg, w, tasks);
    forall i | 0 <= i < |tasks|
      ensures tasks[i].id in w.store.rows && w.store.rows[tasks[i].id].kind != kind && !tasks[i].act.Insert?
    {
      PassTaskIds(cfg, other, view, i);
    }
    IndexFollowsRows(cfg, w, tasks);
    forall id | id in w.store.rows && w.store.rows[id].kind == kind
      ensures id in w'.store.rows && w'.store.rows[id] == w.store.rows[id]
    {
      Locality(cfg, w, tasks, id);
      MineAbsent(tasks, id);
      SliceParts(w, id);
      SliceParts(w', id);
    }
  }
}
