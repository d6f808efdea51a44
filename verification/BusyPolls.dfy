/** Polls during which create requests store new rows. */
module BusyPolls {
  import opened Resource
  import opened Machine
  import opened Poll
  import opened Rounds
  import opened Reporting
  import opened Creation

  /** The world with these rows stored from the start. */
  function Planted(w: World, seen: map<string, Entry>): World {
    w.(store := w.store.(rows := w.store.rows + seen))
  }

  predicate TallyAct(act: Act) {
    act.Count? && act.delta == 1
  }

  function InsertOf(e: Entry): Act {
    Insert(e.kcliName, e.kind, e.status, e.createdAt)
  }

  /** The steps of create requests that store exactly `created`, all of them ids without a row. */
  ghost predicate Creations(w: World, created: map<string, Entry>, makers: seq<Task>) {
    && (forall id :: id in created ==> id !in w.store.rows && created[id].id == id)
    && (forall id :: Making(Mine(makers, id), if id in created then Some(created[id]) else None))
  }

  /** Tallies, and one insertion if there is a row to store. */
  ghost predicate Making(acts: seq<Act>, row: Option<Entry>) {
    if acts == [] then row.None?
    else
      var init, last := acts[..|acts| - 1], acts[|acts| - 1];
      || (TallyAct(last) && Making(init, row))
      || (row.Some? && last == InsertOf(row.value) && Making(init, None))
  }

  /**
   A poll and create requests in one run: `tasks` merges the steps of both. Of the rows created meanwhile,
   the poll's store listings saw `seen`; its steps for those come after their insertion.
  */
  ghost predicate BusyPoll(cfg: Config, w: World, view: View, order: Order, seen: map<string, Entry>,
                           created: map<string, Entry>, makers: seq<Task>, tasks: seq<Task>)
  {
    && Creations(w, created, makers)
    && (forall id :: id in seen ==> id in created && seen[id] == created[id])
    && LegalPoll(cfg, Planted(w, seen), view, order)
    && Shuffle(PollTasks(view, order), makers, tasks)
    && (forall id :: id in created ==> InsertedFirst(Mine(tasks, id)))
  }

  /** Nothing but tallies precedes an insertion. */
  ghost predicate InsertedFirst(acts: seq<Act>) {
    forall i, j :: 0 <= i < j < |acts| && acts[j].Insert? ==> TallyAct(acts[i])
  }

  // ---------- Merging, seen at one id ----------

  /** `z` merges `x` and `y`, keeping the order within each. */
  ghost predicate Mix(x: seq<Act>, y: seq<Act>, z: seq<Act>)
    decreases |z|
  {
    if z == [] then x == [] && y == []
    else
      var act, init := z[|z| - 1], z[..|z| - 1];
      || (x != [] && x[|x| - 1] == act && Mix(x[..|x| - 1], y, init))
      || (y != [] && y[|y| - 1] == act && Mix(x, y[..|y| - 1], init))
  }

  lemma {:induction false} ShuffleMixes(a: seq<Task>, b: seq<Task>, c: seq<Task>, id: string)
    requires Shuffle(a, b, c)
    ensures Mix(Mine(a, id), Mine(b, id), Mine(c, id))
    decreases |c|
  {
    hide Mine;
    if c != [] {
      var t, init := c[|c| - 1], c[..|c| - 1];
      MineEnds(c, id);
      if a != [] && a[|a| - 1] == t && Shuffle(a[..|a| - 1], b, init) {
        MineEnds(a, id);
        ShuffleMixes(a[..|a| - 1], b, init, id);
        MixLeft(Mine(a[..|a| - 1], id), Mine(b, id), Mine(init, id), t.act);
      } else {
        MineEnds(b, id);
        ShuffleMixes(a, b[..|b| - 1], init, id);
        MixRight(Mine(a, id), Mine(b[..|b| - 1], id), Mine(init, id), t.act);
      }
    } else {
      NoneMine(id);
    }
  }

  lemma MixLeft(x: seq<Act>, y: seq<Act>, z: seq<Act>, act: Act)
    requires Mix(x, y, z)
    ensures Mix(x + [act], y, z + [act])
  {
    assert (z + [act])[..|z|] == z && (x + [act])[..|x|] == x;
  }

  lemma MixRight(x: seq<Act>, y: seq<Act>, z: seq<Act>, act: Act)
    requires Mix(x, y, z)
    ensures Mix(x, y + [act], z + [act])
  {
    assert (z + [act])[..|z|] == z && (y + [act])[..|y|] == y;
  }

  /** Every act of `x` is one of `z`. */
  lemma {:induction false} MixMembers(x: seq<Act>, y: seq<Act>, z: seq<Act>, i: int)
    requires Mix(x, y, z) && 0 <= i < |x|
    ensures x[i] in z
    decreases |z|
  {
    var act, init := z[|z| - 1], z[..|z| - 1];
    if x[|x| - 1] == act && Mix(x[..|x| - 1], y, init) {
      if i < |x| - 1 {
        MixMembers(x[..|x| - 1], y, init, i);
      }
    } else {
      MixMembers(x, y[..|y| - 1], init, i);
    }
  }

  lemma TallyAlike(cfg: Config, s: Slice, t: Slice, act: Act)
    requires Alike(s, t) && TallyAct(act)
    ensures Alike(StepSlice(cfg, s, act), t)
  {
    ToldSnoc(s.notes, Counted(act.kind, act.delta));
  }

  /** Tallies merged into other steps change nothing but the notes. */
  lemma {:induction false} TalliesAside(cfg: Config, s: Slice, x: seq<Act>, y: seq<Act>, z: seq<Act>)
    requires Mix(x, y, z) && Making(y, None)
    ensures Alike(ExecSlice(cfg, s, z), ExecSlice(cfg, s, x))
    decreases |z|
  {
    hide Alike, StepSlice;
    if z == [] {
      SelfAlike(s);
    } else {
      var act, init := z[|z| - 1], z[..|z| - 1];
      if x != [] && x[|x| - 1] == act && Mix(x[..|x| - 1], y, init) {
        TalliesAside(cfg, s, x[..|x| - 1], y, init);
        StepAlike(cfg, ExecSlice(cfg, s, init), ExecSlice(cfg, s, x[..|x| - 1]), act);
      } else {
        TalliesAside(cfg, s, x, y[..|y| - 1], init);
        TallyAlike(cfg, ExecSlice(cfg, s, init), ExecSlice(cfg, s, x), act);
      }
    }
  }

  lemma SelfAlike(s: Slice)
    ensures Alike(s, s)
  {
  }

  /** An insertion that only tallies precede might as well come first. */
  lemma {:induction false} InsertionFirst(cfg: Config, s: Slice, e: Entry, x: seq<Act>, y: seq<Act>, z: seq<Act>)
    requires Mix(x, y, z) && Making(y, Some(e)) && InsertedFirst(z)
    requires forall i :: 0 <= i < |x| ==> !x[i].Insert? && !TallyAct(x[i])
    ensures Alike(ExecSlice(cfg, s, z), ExecSlice(cfg, StepSlice(cfg, s, InsertOf(e)), x))
    decreases |z|
  {
    hide Alike, StepSlice;
    var act, init := z[|z| - 1], z[..|z| - 1];
    var stored := StepSlice(cfg, s, InsertOf(e));
    if x != [] && x[|x| - 1] == act && Mix(x[..|x| - 1], y, init) {
      InsertionFirst(cfg, s, e, x[..|x| - 1], y, init);
      StepAlike(cfg, ExecSlice(cfg, s, init), ExecSlice(cfg, stored, x[..|x| - 1]), act);
    } else if TallyAct(act) && Making(y[..|y| - 1], Some(e)) {
      InsertionFirst(cfg, s, e, x, y[..|y| - 1], init);
      TallyAlike(cfg, ExecSlice(cfg, s, init), ExecSlice(cfg, stored, x), act);
    } else {
      NothingBefore(x, y[..|y| - 1], z);
      TalliesAside(cfg, s, x, y[..|y| - 1], init);
      StepAlike(cfg, ExecSlice(cfg, s, init), ExecSlice(cfg, s, []), act);
    }
  }

  lemma NothingBefore(x: seq<Act>, y: seq<Act>, z: seq<Act>)
    requires z != [] && z[|z| - 1].Insert? && InsertedFirst(z) && Mix(x, y, z[..|z| - 1])
    requires forall i :: 0 <= i < |x| ==> !x[i].Insert? && !TallyAct(x[i])
    ensures x == []
  {
    if x != [] {
      MixMembers(x, y, z[..|z| - 1], 0);
    }
  }

  // ---------- Agreement ----------

  lemma PollStepsPlain(cfg: Config, s: Slice, view: View, i: int)
    requires 0 <= i < |PollSteps(cfg, s, view)|
    ensures !PollSteps(cfg, s, view)[i].Insert? && !TallyAct(PollSteps(cfg, s, view)[i])
  {
    hide Decide;
  }

  /** The poll's steps for an id depend on its row and debounce entries, not on what was said about it. */
  lemma SameActs(cfg: Config, s: Slice, t: Slice, view: View)
    requires t == s.(notes := t.notes)
    ensures PollSteps(cfg, s, view) == PollSteps(cfg, t, view)
  {
    hide Decide;
  }

  lemma AlikeAgrees(s: Slice, t: Slice)
    requires Alike(s, t)
    ensures Agrees(s) <==> Agrees(t)
  {
  }

  lemma AbsentActs(cfg: Config, s: Slice, view: View)
    requires s.row.None? && s.pending.None?
    ensures PollSteps(cfg, s, view) == []
  {
  }

  /** One id through a busy poll: agreeing before, agreeing after, with nothing half published. */
  lemma BusyAtId(cfg: Config, s: Slice, planted: Slice, view: View, row: Option<Entry>, y: seq<Act>, z: seq<Act>)
    requires Agrees(s) && s.held.None? && (s.row.Some? ==> s.row.value.id == s.id)
    requires row.Some? ==> s.row.None? && row.value.id == s.id
    requires planted == s || (row.Some? && planted == s.(row := row))
    requires Mix(PollSteps(cfg, planted, view), y, z) && Making(y, row) && (row.Some? ==> InsertedFirst(z))
    ensures var t := ExecSlice(cfg, s, z);
            Agrees(t) && t.held.None? && (t.row.Some? ==> t.row.value.id == s.id)
  {
    hide ExecSlice, PollSteps, Polled, Mix, Making, InsertedFirst, Told;
    var t := ExecSlice(cfg, s, z);
    var x := PollSteps(cfg, planted, view);
    if row.None? {
      TalliesAside(cfg, s, x, y, z);
      PollStepsPoll(cfg, s, view);
      PolledAgrees(cfg, s, view);
      PolledShape(cfg, s, view);
      AlikeAgrees(t, Polled(cfg, s, view));
    } else {
      forall i | 0 <= i < |x|
        ensures !x[i].Insert? && !TallyAct(x[i])
      {
        PollStepsPlain(cfg, planted, view, i);
      }
      var stored := StepSlice(cfg, s, InsertOf(row.value));
      InsertionFirst(cfg, s, row.value, x, y, z);
      ToldSnoc(s.notes, Stored(row.value.status));
      assert stored.row == row;
      if planted.row.None? {
        AbsentActs(cfg, planted, view);
        NoActs(cfg, stored);
        AlikeAgrees(t, stored);
      } else {
        SameActs(cfg, planted, stored, view);
        PollStepsPoll(cfg, stored, view);
        PolledAgrees(cfg, stored, view);
        PolledShape(cfg, stored, view);
        AlikeAgrees(t, Polled(cfg, stored, view));
      }
    }
  }

  /**
   Subscriber agreement survives polls with creations falling anywhere in them: between the listing of kweb
   and those of the store, between any two steps, whether or not the listings still saw the new rows.
  */
  lemma AgreementWithCreations(cfg: Config, w: World, view: View, order: Order, seen: map<string, Entry>,
                               created: map<string, Entry>, makers: seq<Task>, tasks: seq<Task>)
    requires Agreement(w) && BusyPoll(cfg, w, view, order, seen, created, makers, tasks)
    ensures Agreement(Exec(cfg, w, tasks))
  {
    var w' := Exec(cfg, w, tasks);
    forall id
      ensures Agrees(SliceOf(w', id))
      ensures id !in w'.held
      ensures id in w'.store.rows ==> w'.store.rows[id].id == id
    {
      BusyTasksAtId(cfg, w, view, order, seen, created, makers, tasks, id);
      SliceParts(w', id);
    }
  }

  lemma BusyTasksAtId(cfg: Config, w: World, view: View, order: Order, seen: map<string, Entry>,
                      created: map<string, Entry>, makers: seq<Task>, tasks: seq<Task>, id: string)
    requires Agreement(w) && BusyPoll(cfg, w, view, order, seen, created, makers, tasks)
    ensures var t := SliceOf(Exec(cfg, w, tasks), id);
            Agrees(t) && t.held.None? && (t.row.Some? ==> t.row.value.id == id)
  {
    hide Agrees, LegalPoll, PollTasks, Exec, Mine, Mix, Making, InsertedFirst, PollSteps, ExecSlice, Shuffle, Notes;
    var row := if id in created then Some(created[id]) else None;
    var p := Planted(w, seen);
    assert AtRest(p);
    Locality(cfg, w, tasks, id);
    ShuffleMixes(PollTasks(view, order), makers, tasks, id);
    MinePoll(cfg, p, view, order, id);
    assert Making(Mine(makers, id), row);
    BusyAtId(cfg, SliceOf(w, id), SliceOf(p, id), view, row, Mine(makers, id), Mine(tasks, id));
  }
}
