/** The poll as a pure function of what kweb lists, what is stored, and the clock. */
module Reconcile {
  import opened Resource
  import opened StatusMap
  import opened StoreModel
  import opened Machine
  import opened Poll
  import opened Rounds

  /** What should become of a row: kept with the status the view implies, or (None) removed. */
  function Target(cfg: Config, e: Entry, view: View): Option<Entry> {
    var age := view.tick(e.id).observe - e.createdAt;
    if e.kind == VM && view.vms.Some? then
      if e.kcliName in view.vms.value then Some(e.(status := MapVmStatus(view.vms.value[e.kcliName], age)))
      else if Leaving(e.status) then Some(e)
      else None
    else if e.kind == CLUSTER && view.clusters.Some? then
      if e.kcliName in view.clusters.value then
        Some(e.(status := MapClusterStatus(view.clusters.value[e.kcliName], age, cfg.createTimeout)))
      else if Leaving(e.status) then Some(e)
      else if e.status == CREATING then Some(if age > cfg.createTimeout then e.(status := ERROR) else e)
      else None
    else Some(e)
  }

  function Reconciled(cfg: Config, rows: map<string, Entry>, view: View): map<string, Entry> {
    map id | id in rows && Target(cfg, rows[id], view).Some? :: Target(cfg, rows[id], view).value
  }

  lemma TargetIsReview(cfg: Config, s: Slice, view: View)
    requires s.row.Some? && s.row.value.id == s.id
    ensures Polled(cfg, s, view).row == Target(cfg, s.row.value, view)
  {
  }

  /**
   Refinement: however it is scheduled, a poll turns the rows into `Reconciled` of what it saw,
   and the index loses exactly the names of the rows that went.
  */
  lemma PollRefinesReconcile(cfg: Config, w: World, view: View, order: Order)
    requires AtRest(w) && LegalPoll(cfg, w, view, order)
    ensures var w' := Exec(cfg, w, PollTasks(view, order));
            && w'.store.rows == Reconciled(cfg, w.store.rows, view)
            && w'.store.names == NamesLeft(w.store.names, w.store.rows, w'.store.rows)
  {
    hide Polled, Target, LegalPoll, PollTasks;
    var w' := Exec(cfg, w, PollTasks(view, order));
    forall id
      ensures Lookup(w'.store.rows, id) == Lookup(Reconciled(cfg, w.store.rows, view), id)
    {
      PollAtId(cfg, w, view, order, id);
      SliceParts(w, id);
      SliceParts(w', id);
      if id in w.store.rows {
        TargetIsReview(cfg, SliceOf(w, id), view);
      } else {
        AbsentStaysAbsent(cfg, SliceOf(w, id), view);
      }
    }
    LookupFixes(w'.store.rows, Reconciled(cfg, w.store.rows, view));
    BodyNoInsert(cfg, w, view, order);
    IndexFollowsRows(cfg, w, PollTasks(view, order));
  }

  lemma AbsentStaysAbsent(cfg: Config, s: Slice, view: View)
    requires s.row.None?
    ensures Polled(cfg, s, view).row.None?
  {
  }

  // ---------- Polling again ----------

  /** The second view lists the same things and no row's age has crossed a threshold in between. */
  ghost predicate NothingNew(cfg: Config, rows: map<string, Entry>, first: View, second: View) {
    && first.vms == second.vms && first.clusters == second.clusters
    && forall id :: id in rows ==>
         var age1, age2 := first.tick(id).observe - rows[id].createdAt, second.tick(id).observe - rows[id].createdAt;
         && (age1 < PROVISIONING_THRESHOLD <==> age2 < PROVISIONING_THRESHOLD)
         && (age1 > cfg.createTimeout <==> age2 > cfg.createTimeout)
  }

  /** An absent cluster that the poll gives up on: still CREATING past the timeout. */
  predicate TimedOut(cfg: Config, e: Entry, view: View) {
    && e.kind == CLUSTER && view.clusters.Some? && e.kcliName !in view.clusters.value
    && e.status == CREATING && view.tick(e.id).observe - e.createdAt > cfg.createTimeout
  }

  lemma TargetTwice(cfg: Config, rows: map<string, Entry>, first: View, second: View, id: string)
    requires Keyed(rows) && NothingNew(cfg, rows, first, second) && id in rows
    ensures var once := Target(cfg, rows[id], first);
            once.Some? ==> Target(cfg, once.value, second)
                           == if TimedOut(cfg, rows[id], first) then None else once
  {
  }

  /** Polling again with nothing new only removes the clusters the first poll timed out. */
  lemma SecondPoll(cfg: Config, rows: map<string, Entry>, first: View, second: View)
    requires Keyed(rows) && NothingNew(cfg, rows, first, second)
    ensures Reconciled(cfg, Reconciled(cfg, rows, first), second)
            == Reconciled(cfg, rows, first) - set id | id in rows && TimedOut(cfg, rows[id], first)
  {
    hide Target, TimedOut, NothingNew;
    forall id | id in rows
      ensures var once := Target(cfg, rows[id], first);
              once.Some? ==> Target(cfg, once.value, second)
                             == if TimedOut(cfg, rows[id], first) then None else once
    {
      TargetTwice(cfg, rows, first, second, id);
    }
  }

  lemma TimedOutSurvivesOnce(cfg: Config, e: Entry, view: View)
    requires TimedOut(cfg, e, view)
    ensures Target(cfg, e, view) == Some(e.(status := ERROR))
  {
  }

  /** So polling is idempotent exactly when no absent cluster has just timed out. */
  lemma IdempotentIff(cfg: Config, rows: map<string, Entry>, first: View, second: View)
    requires Keyed(rows) && NothingNew(cfg, rows, first, second)
    ensures Reconciled(cfg, Reconciled(cfg, rows, first), second) == Reconciled(cfg, rows, first)
            <==> forall id :: id in rows ==> !TimedOut(cfg, rows[id], first)
  {
    hide TimedOut, NothingNew, Target;
    SecondPoll(cfg, rows, first, second);
    var once := Reconciled(cfg, rows, first);
    forall id | id in rows && TimedOut(cfg, rows[id], first)
      ensures id in once
    {
      TimedOutSurvivesOnce(cfg, rows[id], first);
    }
  }
}
