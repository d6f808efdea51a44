/** Runs that exist: every view can be polled, and the awkward cases of reporting do occur. */
module Scenarios {
  import opened Resource
  import opened StatusMap
  import opened StoreModel
  import opened Machine
  import opened Poll
  import opened Rounds
  import opened Reporting
  import opened Protocol
  import Monitor

  // ---------- Every poll can happen ----------

  lemma {:induction false} ListingExists(rows: map<string, Entry>) returns (es: seq<Entry>)
    requires Keyed(rows)
    ensures Lists(es, rows)
    decreases |rows|
  {
    if rows == map[] {
      es := [];
    } else {
      var id :| id in rows;
      var rest := rows - {id};
      assert |rest.Keys| < |rows.Keys| by { assert rest.Keys == rows.Keys - {id}; }
      es := ListingExists(rest);
      ListsGrows(es, rest, rows[id]);
      assert rest[id := rows[id]] == rows;
      es := es + [rows[id]];
    }
  }

  lemma {:induction false} OrderExists(ids: set<string>) returns (s: seq<string>)
    ensures Distinct(s) && forall id :: id in s <==> id in ids
  {
    if ids == {} {
      s := [];
    } else {
      var id :| id in ids;
      s := OrderExists(ids - {id});
      assert forall other :: other in s + [id] <==> other in s || other == id;
      s := s + [id];
    }
  }

  /** Whatever a poll sees of kweb and of the clock, it can run in some order. */
  lemma PollExists(cfg: Config, w: World, view: View) returns (order: Order)
    requires Keyed(w.store.rows)
    ensures LegalPoll(cfg, w, view, order)
  {
    hide Exec, PassTasks, Shuffle, Lists;
    var vmRows, clusterRows: seq<Entry> := [], [];
    if view.vms.Some? {
      vmRows := ListingExists(OfKind(w.store.rows, VM));
    }
    if view.clusters.Some? {
      clusterRows := ListingExists(OfKind(w.store.rows, CLUSTER));
    }
    var body := PassTasks(cfg, vmRows, view) + PassTasks(cfg, clusterRows, view);
    Monitor.SequentialShuffle(PassTasks(cfg, vmRows, view), PassTasks(cfg, clusterRows, view));
    var mid := Exec(cfg, w, body);
    var due := set id | id in mid.pending && DueForFlush(cfg, mid, view, id);
    var flushIds := OrderExists(due);
    order := Order(vmRows, clusterRows, body, flushIds);
  }

  // ---------- One VM's story ----------

  const ID := "a"
  const NAME := "dcm-a"
  const NOTHING := World(StoreState(map[], map[]), map[], map[], map[], map[], [])

  function NewVm(): Entry {
    Entry(ID, NAME, VM, PROVISIONING, 0)
  }

  /** A poll at instant zero that finds the VM with this kweb status, or not at all. */
  function Seeing(status: Option<string>): View {
    View(Some(if status.Some? then map[NAME := status.value] else map[]), None,
         (id: string) => Tick(0, 0, 0, 0), (id: string) => Tick(0, 0, 0, 0))
  }

  lemma NothingAgrees()
    ensures Agreement(NOTHING) && SliceOf(NOTHING, ID) == Slice(ID, None, None, None, None, [])
  {
  }

  /** One more round of a run. */
  lemma RunOn(cfg: Config, worlds: seq<World>, rounds: seq<Round>, round: Round) returns (w: World)
    requires IsRun(cfg, worlds, rounds) && AtRest(worlds[|rounds|]) && LegalRound(cfg, worlds[|rounds|], round)
    ensures IsRun(cfg, worlds + [w], rounds + [round]) && AtRest(w)
    ensures SliceOf(w, ID) == SliceRound(cfg, SliceOf(worlds[|rounds|], ID), round)
  {
    hide LegalRound, AtRest, SliceRound, SliceOf, Exec, RoundTasks;
    w := Exec(cfg, worlds[|rounds|], RoundTasks(round));
    RoundAtId(cfg, worlds[|rounds|], round, ID);
    forall k | 0 <= k < |rounds + [round]|
      ensures Advances(cfg, (worlds + [w])[k], (rounds + [round])[k], (worlds + [w])[k + 1])
    {
      if k < |rounds| {
        assert Advances(cfg, worlds[k], rounds[k], worlds[k + 1]);
      }
    }
  }

  /** The VM is created and a poll finds it up, which is published at instant zero. */
  lemma CreatedAndUp(cfg: Config) returns (worlds: seq<World>, rounds: seq<Round>)
    ensures IsRun(cfg, worlds, rounds) && |rounds| == 2 && Agreement(worlds[0]) && AtRest(worlds[2])
    ensures SliceOf(worlds[2], ID)
            == Slice(ID, Some(NewVm().(status := RUNNING)), None, Some(0), None,
                     [Stored(PROVISIONING), Counted(VM, 1), Published(Event(VM, RUNNING, 0))])
    ensures AllAtZero(rounds)
  {
    hide IsRun, AtRest, Agreement, SliceOf, LegalPoll;
    NothingAgrees();
    NothingRuns(cfg);
    var create := CreateRound(NewVm());
    var w1 := RunOn(cfg, [NOTHING], [], create);
    assert [NOTHING] + [w1] == [NOTHING, w1] && [] + [create] == [create];
    var order := PollAt(cfg, w1, Seeing(Some("up")));
    var poll := PollRound(Seeing(Some("up")), order, 0, 0);
    var w2 := RunOn(cfg, [NOTHING, w1], [create], poll);
    worlds, rounds := [NOTHING, w1] + [w2], [create] + [poll];
    UpIsPublished(cfg, SliceOf(w1, ID));
  }

  lemma NothingRuns(cfg: Config)
    ensures IsRun(cfg, [NOTHING], []) && AtRest(NOTHING) && LegalRound(cfg, NOTHING, CreateRound(NewVm()))
  {
  }

  lemma PollAt(cfg: Config, w: World, view: View) returns (order: Order)
    requires AtRest(w)
    ensures LegalPoll(cfg, w, view, order)
  {
    order := PollExists(cfg, w, view);
  }

  lemma UpIsPublished(cfg: Config, s: Slice)
    requires s == Slice(ID, Some(NewVm()), None, None, None, [Stored(PROVISIONING), Counted(VM, 1)])
    ensures Polled(cfg, s, Seeing(Some("up")))
            == s.(row := Some(NewVm().(status := RUNNING)), last := Some(0),
                  notes := s.notes + [Published(Event(VM, RUNNING, 0))])
  {
    assert EqualFold("up", "up") && RUNNING[0] == 'R';
  }

  /** Every poll of the run reads the clock at zero only, so the clock never runs backwards. */
  ghost predicate AllAtZero(rounds: seq<Round>) {
    forall i :: 0 <= i < |rounds| && rounds[i].PollRound? ==>
      rounds[i].start == rounds[i].finish == 0 && (exists status :: rounds[i].view == Seeing(status))
  }

  lemma ZeroIsTimed(rounds: seq<Round>)
    requires AllAtZero(rounds)
    ensures Timed(rounds)
  {
  }

  /** A delete can hit an id with an event pending: a change of status within the window, then the request. */
  lemma PendingAtDelete(cfg: Config) returns (worlds: seq<World>, rounds: seq<Round>)
    requires cfg.window > 0
    ensures IsRun(cfg, worlds, rounds) && Agreement(worlds[0]) && Timed(rounds)
    ensures |rounds| == 4 && rounds[3].DeleteRound? && rounds[3].id in worlds[3].pending
  {
    hide IsRun, AtRest, Agreement, LegalPoll, SliceOf, Timed;
    worlds, rounds := CreatedAndUp(cfg);
    RunSize(cfg, worlds, rounds);
    var order := PollAt(cfg, worlds[2], Seeing(Some("paused")));
    var poll := PollRound(Seeing(Some("paused")), order, 0, 0);
    var w3 := RunOn(cfg, worlds, rounds, poll);
    PausedIsPending(cfg, SliceOf(worlds[2], ID));
    SliceParts(w3, ID);
    var w4 := RunOn(cfg, worlds + [w3], rounds + [poll], DeleteRound(VM, ID));
    worlds, rounds := worlds + [w3] + [w4], rounds + [poll] + [DeleteRound(VM, ID)];
    assert worlds[3] == w3 && rounds[3].id == ID;
    ZeroIsTimed(rounds);
  }

  lemma PausedIsPending(cfg: Config, s: Slice)
    requires cfg.window > 0 && s.id == ID && s.row == Some(NewVm().(status := RUNNING)) && s.last == Some(0)
    ensures var t := Polled(cfg, s, Seeing(Some("paused")));
            t.pending.Some? && t.row.Some? && !Leaving(t.row.value.status)
  {
    assert EqualFold("paused", "paused") && RUNNING[0] == 'R' && PAUSED[0] == 'P';
  }

  /** A removal can go unsaid: the VM vanishes from kweb within the window of its last event. */
  lemma SilentRemoval(cfg: Config) returns (worlds: seq<World>, rounds: seq<Round>)
    requires cfg.window > 0
    ensures IsRun(cfg, worlds, rounds) && Agreement(worlds[0]) && Timed(rounds) && |rounds| == 3
    ensures ID in worlds[2].store.rows && ID !in worlds[3].store.rows
    ensures Notes(worlds[3].log, ID) == Notes(worlds[2].log, ID) + [Counted(VM, -1)] + [Forgotten]
    ensures Told(Notes(worlds[3].log, ID)) == Some(RUNNING)
  {
    hide IsRun, AtRest, Agreement, LegalPoll, Timed;
    worlds, rounds := CreatedAndUp(cfg);
    RunSize(cfg, worlds, rounds);
    var order := PollAt(cfg, worlds[2], Seeing(None));
    var poll := PollRound(Seeing(None), order, 0, 0);
    var w3 := RunOn(cfg, worlds, rounds, poll);
    var s := SliceOf(worlds[2], ID);
    MissingIsRemoved(cfg, s);
    SliceParts(worlds[2], ID);
    SliceParts(w3, ID);
    ToldSnoc(s.notes[..2], s.notes[2]);
    ToldSnoc(s.notes, Counted(VM, -1));
    ToldSnoc(s.notes + [Counted(VM, -1)], Forgotten);
    assert s.notes == s.notes[..2] + [s.notes[2]];
    worlds, rounds := worlds + [w3], rounds + [poll];
    ZeroIsTimed(rounds);
  }

  lemma MissingIsRemoved(cfg: Config, s: Slice)
    requires cfg.window > 0 && s.id == ID && s.row == Some(NewVm().(status := RUNNING)) && s.last == Some(0)
    ensures var t := Polled(cfg, s, Seeing(None));
            t.row.None? && t.notes == s.notes + [Counted(VM, -1)] + [Forgotten]
  {
    assert RUNNING[0] == 'R';
    assert s.notes + [] == s.notes;
  }
}
