/** Runs of the provider: creations, deletions and polls, one after another, over one process lifetime. */
module Rounds {
  import opened Resource
  import opened StoreModel
  import opened Machine
  import opened Poll

  /**
   A completed creation of a fresh row, a completed delete request of endpoint `kind`, or a poll whose
   clock readings lie in [start, finish].
  */
  datatype Round =
    | CreateRound(entry: Entry)
    | DeleteRound(kind: string, id: string)
    | PollRound(view: View, order: Order, start: int, finish: int)

  /** The steps of a completed request, in code order. */
  function CreateActs(e: Entry): seq<Act> {
    [Insert(e.kcliName, e.kind, e.status, e.createdAt), Count(e.kind, 1)]
  }

  function DeleteActs(kind: string): seq<Act> {
    [SetStatus(DELETING), Announce(kind, DELETED), Erase, Count(kind, -1)]
  }

  function RoundTasks(round: Round): seq<Task> {
    match round
    case CreateRound(e) => TasksOf(e.id, CreateActs(e))
    case DeleteRound(kind, id) => TasksOf(id, DeleteActs(kind))
    case PollRound(view, order, _, _) => PollTasks(view, order)
  }

  ghost predicate LegalRound(cfg: Config, w: World, round: Round) {
    match round
    case CreateRound(e) => e.id !in w.store.rows
    case DeleteRound(_, id) => id in w.store.rows && !Leaving(w.store.rows[id].status)
    case PollRound(view, order, _, _) => LegalPoll(cfg, w, view, order)
  }

  /** One round from `w` to `w'`. */
  ghost predicate Advances(cfg: Config, w: World, round: Round, w': World) {
    LegalRound(cfg, w, round) && w' == Exec(cfg, w, RoundTasks(round))
  }

  /** `worlds` are the states of a run of `rounds`, from the first to the last. */
  ghost predicate IsRun(cfg: Config, worlds: seq<World>, rounds: seq<Round>) {
    && |worlds| == |rounds| + 1
    && forall k :: 0 <= k < |rounds| ==> Advances(cfg, worlds[k], rounds[k], worlds[k + 1])
  }

  /** Nothing is half published and every row is under its own id: the state between rounds. */
  ghost predicate AtRest(w: World) {
    Keyed(w.store.rows) && w.held == map[]
  }

  // ---------- Clocks ----------

  /** All readings of a poll lie in [start, finish], in the order the code takes them. */
  ghost predicate Ordered(view: View, start: int, finish: int) {
    forall id :: && start <= view.tick(id).observe <= view.tick(id).schedule
                 && view.tick(id).schedule <= view.tick(id).check <= view.tick(id).stamp
                 && view.tick(id).stamp <= view.flush(id).check <= view.flush(id).stamp <= finish
  }

  /** The clock never runs backwards, within polls or from one poll to the next. */
  ghost predicate Timed(rounds: seq<Round>) {
    && (forall i :: 0 <= i < |rounds| && rounds[i].PollRound? ==>
          rounds[i].start <= rounds[i].finish && Ordered(rounds[i].view, rounds[i].start, rounds[i].finish))
    && (forall i, j :: 0 <= i < j < |rounds| && rounds[i].PollRound? && rounds[j].PollRound? ==>
          rounds[i].finish <= rounds[j].start)
  }

  // ---------- Rounds, seen at one id ----------

  function SliceRound(cfg: Config, s: Slice, round: Round): Slice {
    match round
    case CreateRound(e) =>
      if e.id == s.id then s.(row := Some(e), notes := s.notes + [Stored(e.status), Counted(e.kind, 1)]) else s
    case DeleteRound(kind, id) =>
      if id == s.id then s.(row := None, notes := s.notes + [Announced(kind, DELETED), Counted(kind, -1)]) else s
    case PollRound(view, _, _, _) => Polled(cfg, s, view)
  }

  lemma SliceId(w: World, id: string)
    ensures SliceOf(w, id).id == id
  {
  }

  /** The steps of one id, seen at any id. */
  lemma ActsAtId(cfg: Config, w: World, subject: string, acts: seq<Act>, id: string)
    ensures SliceOf(Exec(cfg, w, TasksOf(subject, acts)), id)
            == if id == subject then ExecSlice(cfg, SliceOf(w, id), acts) else SliceOf(w, id)
  {
    hide Exec, Mine, SliceOf, ExecSlice;
    Locality(cfg, w, TasksOf(subject, acts), id);
    MineTasksOf(subject, acts, id);
    NoActs(cfg, SliceOf(w, id));
  }

  lemma CreateActsDo(cfg: Config, s: Slice, e: Entry)
    requires e.id == s.id
    ensures ExecSlice(cfg, s, CreateActs(e)) == SliceRound(cfg, s, CreateRound(e))
  {
    hide ExecSlice;
    var acts := CreateActs(e);
    assert acts == [acts[0]] + ([acts[1]] + []);
    ExecSliceCons(cfg, s, acts[0], [acts[1]] + []);
    ExecSliceCons(cfg, StepSlice(cfg, s, acts[0]), acts[1], []);
    NoActs(cfg, StepSlice(cfg, StepSlice(cfg, s, acts[0]), acts[1]));
    assert s.notes + [Stored(e.status)] + [Counted(e.kind, 1)] == s.notes + [Stored(e.status), Counted(e.kind, 1)];
  }

  lemma DeleteActsDo(cfg: Config, s: Slice, kind: string)
    ensures ExecSlice(cfg, s, DeleteActs(kind)) == SliceRound(cfg, s, DeleteRound(kind, s.id))
  {
    hide ExecSlice;
    var acts := DeleteActs(kind);
    var s1 := StepSlice(cfg, s, acts[0]);
    var s2 := StepSlice(cfg, s1, acts[1]);
    var s3 := StepSlice(cfg, s2, acts[2]);
    assert acts == [acts[0]] + ([acts[1]] + ([acts[2]] + ([acts[3]] + [])));
    ExecSliceCons(cfg, s, acts[0], [acts[1]] + ([acts[2]] + ([acts[3]] + [])));
    ExecSliceCons(cfg, s1, acts[1], [acts[2]] + ([acts[3]] + []));
    ExecSliceCons(cfg, s2, acts[2], [acts[3]] + []);
    ExecSliceCons(cfg, s3, acts[3], []);
    NoActs(cfg, StepSlice(cfg, s3, acts[3]));
    assert s.notes + [Announced(kind, DELETED)] + [Counted(kind, -1)]
           == s.notes + [Announced(kind, DELETED), Counted(kind, -1)];
  }

  lemma RequestAtId(cfg: Config, w: World, round: Round, id: string)
    requires !round.PollRound?
    ensures SliceOf(Exec(cfg, w, RoundTasks(round)), id) == SliceRound(cfg, SliceOf(w, id), round)
  {
    hide Exec, SliceOf, ExecSlice, CreateActs, DeleteActs;
    SliceId(w, id);
    match round {
      case CreateRound(e) =>
        ActsAtId(cfg, w, e.id, CreateActs(e), id);
        if e.id == id {
          CreateActsDo(cfg, SliceOf(w, id), e);
        }
      case DeleteRound(kind, subject) =>
        ActsAtId(cfg, w, subject, DeleteActs(kind), id);
        DeleteActsDo(cfg, SliceOf(w, id), kind);
    }
  }

  lemma RequestKeepsRest(cfg: Config, w: World, round: Round)
    requires AtRest(w) && !round.PollRound?
    ensures AtRest(Exec(cfg, w, RoundTasks(round)))
  {
    hide SliceRound, Exec, RoundTasks;
    var w' := Exec(cfg, w, RoundTasks(round));
    forall id
      ensures id !in w'.held
      ensures id in w'.store.rows ==> w'.store.rows[id].id == id
    {
      RequestAtId(cfg, w, round, id);
      SliceRoundShape(cfg, SliceOf(w, id), round);
      SliceParts(w', id);
    }
  }

  lemma RoundAtId(cfg: Config, w: World, round: Round, id: string)
    requires AtRest(w) && LegalRound(cfg, w, round)
    ensures AtRest(Exec(cfg, w, RoundTasks(round)))
    ensures SliceOf(Exec(cfg, w, RoundTasks(round)), id) == SliceRound(cfg, SliceOf(w, id), round)
  {
    if round.PollRound? {
      PollAtId(cfg, w, round.view, round.order, id);
      PollKeepsShape(cfg, w, round.view, round.order);
    } else {
      RequestAtId(cfg, w, round, id);
      RequestKeepsRest(cfg, w, round);
    }
  }

  lemma {:induction false} RunStaysAtRest(cfg: Config, worlds: seq<World>, rounds: seq<Round>, k: nat)
    requires IsRun(cfg, worlds, rounds) && AtRest(worlds[0]) && k <= |rounds|
    ensures AtRest(worlds[k])
  {
    hide LegalRound, AtRest;
    if k > 0 {
      RunStaysAtRest(cfg, worlds, rounds, k - 1);
      assert Advances(cfg, worlds[k - 1], rounds[k - 1], worlds[k - 1 + 1]);
      RoundAtId(cfg, worlds[k - 1], rounds[k - 1], "");
    }
  }

  /** Every run of the monitor, seen at one id, takes that id's slice from round to round by `SliceRound`. */
  lemma RunAtId(cfg: Config, worlds: seq<World>, rounds: seq<Round>, k: nat, id: string)
    requires IsRun(cfg, worlds, rounds) && AtRest(worlds[0]) && k < |rounds|
    ensures AtRest(worlds[k]) && AtRest(worlds[k + 1])
    ensures SliceOf(worlds[k + 1], id) == SliceRound(cfg, SliceOf(worlds[k], id), rounds[k])
  {
    hide LegalRound, AtRest;
    RunStaysAtRest(cfg, worlds, rounds, k);
    assert Advances(cfg, worlds[k], rounds[k], worlds[k + 1]);
    RoundAtId(cfg, worlds[k], rounds[k], id);
  }

  /** A row's own id survives every round. */
  lemma SliceRoundShape(cfg: Config, s: Slice, round: Round)
    requires s.held.None? && (s.row.Some? ==> s.row.value.id == s.id)
    ensures var t := SliceRound(cfg, s, round);
            t.id == s.id && t.held.None? && (t.row.Some? ==> t.row.value.id == t.id)
  {
  }
}
