/** The delete handlers racing any number of polls over one id, at the grain of single atomic steps. */
module Protocol {
  import opened Resource
  import opened StatusMap
  import opened Machine
  import opened Poll
  import opened Rounds

  /** Where the polling loop stands with respect to this id. */
  datatype PollPc = Resting | Listed(view: View) | Busy(todo: seq<Act>)

  /** Where one delete request stands, after each of its atomic steps. */
  datatype DeletePc =
    | Start
    | Got(was: Entry)      // row read, not leaving
    | Marked(was: Entry)   // DELETING stored
    | Gone                 // kweb delete succeeded
    | Spoken               // DELETED published
    | Erased               // row deleted
    | Finished             // gauge decremented
    | Refused(was: Entry)  // kweb delete failed
    | Failed               // old status restored
    | Declined             // no row, or already leaving

  /**
   One id of the given kind and name. `overlaps` counts the polls that overlap the request, `removals` the
   polls that set out to remove the row.
  */
  datatype Sys = Sys(
    slice: Slice, kind: string, name: string, inKweb: bool, handler: DeletePc, poll: PollPc, overlaps: nat,
    removals: nat)

  /** One atomic step of either side; `kwebOk` is kweb's answer, `view` what a listing of kweb returns. */
  datatype Move =
    | HandlerStep(kwebOk: bool)
    | PollBegins(view: View)
    | PollReads
    | PollActs

  predicate Active(h: DeletePc) {
    h.Got? || h.Marked? || h.Gone? || h.Spoken? || h.Erased? || h.Refused?
  }

  /** The names of a kind that the poll saw in kweb, None when that pass is skipped. */
  function Shown(view: View, kind: string): Option<set<string>> {
    if kind == VM then if view.vms.Some? then Some(view.vms.value.Keys) else None
    else if view.clusters.Some? then Some(view.clusters.value.Keys) else None
  }

  /** A listing shows the resource exactly when kweb has it. */
  predicate Honest(view: View, kind: string, name: string, inKweb: bool) {
    Shown(view, kind).Some? ==> (name in Shown(view, kind).value <==> inKweb)
  }

  /** The steps a poll takes for the row it read, ending with the flush. */
  function Program(cfg: Config, row: Option<Entry>, view: View, id: string): seq<Act> {
    DecideRow(cfg, row, view) + [Flush(view.flush(id)), Emit]
  }

  /** All that is left is the closing flush, and it takes nothing out for this id. */
  predicate NothingDue(cfg: Config, s: Slice, todo: seq<Act>) {
    && |todo| == 2 && todo[0].Flush? && todo[1].Emit? && s.held.None?
    && !(s.pending.Some? && Open(cfg, s.last, todo[0].tick.check))
  }

  /** How many gauge decrements a program still holds. */
  function Owed(todo: seq<Act>): nat {
    if todo == [] then 0
    else (if todo[0].Count? && todo[0].delta < 0 then 1 else 0) + Owed(todo[1..])
  }

  function HandlerNext(cfg: Config, s: Sys, kwebOk: bool): Sys {
    match s.handler
    case Start =>
      if s.slice.row.None? || Leaving(s.slice.row.value.status) then s.(handler := Declined)
      else s.(handler := Got(s.slice.row.value), overlaps := if s.poll.Resting? then 0 else 1)
    case Got(was) => s.(slice := StepSlice(cfg, s.slice, SetStatus(DELETING)), handler := Marked(was))
    case Marked(was) => if kwebOk then s.(inKweb := false, handler := Gone) else s.(handler := Refused(was))
    case Refused(was) => s.(slice := StepSlice(cfg, s.slice, SetStatus(was.status)), handler := Failed)
    case Gone => s.(slice := StepSlice(cfg, s.slice, Announce(s.kind, DELETED)), handler := Spoken)
    case Spoken => s.(slice := StepSlice(cfg, s.slice, Erase), handler := Erased)
    case Erased => s.(slice := StepSlice(cfg, s.slice, Count(s.kind, -1)), handler := Finished)
    case _ => s
  }

  function PollNext(cfg: Config, s: Sys, move: Move): Sys {
    match move
    case PollBegins(view) =>
      if s.poll.Resting? && Honest(view, s.kind, s.name, s.inKweb) then
        s.(poll := Listed(view), overlaps := s.overlaps + if Active(s.handler) then 1 else 0)
      else s
    case PollReads =>
      if s.poll.Listed? then
        var todo := Program(cfg, s.slice.row, s.poll.view, s.slice.id);
        s.(poll := Busy(todo), removals := s.removals + Owed(todo))
      else s
    case PollActs =>
      if s.poll.Busy? then
        if s.poll.todo == [] || NothingDue(cfg, s.slice, s.poll.todo) then s.(poll := Resting)
        else s.(slice := StepSlice(cfg, s.slice, s.poll.todo[0]), poll := Busy(s.poll.todo[1..]))
      else s
    case HandlerStep(_) => s
  }

  function Next(cfg: Config, s: Sys, move: Move): Sys {
    if move.HandlerStep? then HandlerNext(cfg, s, move.kwebOk) else PollNext(cfg, s, move)
  }

  function RunMoves(cfg: Config, s: Sys, moves: seq<Move>): Sys {
    if moves == [] then s else Next(cfg, RunMoves(cfg, s, moves[..|moves| - 1]), moves[|moves| - 1])
  }

  // ---------- What is counted ----------

  predicate SaysDeleted(note: Note) {
    (note.Published? && note.event.status == DELETED) || (note.Announced? && note.status == DELETED)
  }

  function DeletedNotes(notes: seq<Note>): nat {
    if notes == [] then 0 else DeletedNotes(notes[..|notes| - 1]) + if SaysDeleted(notes[|notes| - 1]) then 1 else 0
  }

  predicate Decrement(note: Note) {
    note.Counted? && note.delta < 0
  }

  function Decrements(notes: seq<Note>): nat {
    if notes == [] then 0 else Decrements(notes[..|notes| - 1]) + if Decrement(notes[|notes| - 1]) then 1 else 0
  }

  lemma CountsSnoc(notes: seq<Note>, note: Note)
    ensures DeletedNotes(notes + [note]) == DeletedNotes(notes) + if SaysDeleted(note) then 1 else 0
    ensures Decrements(notes + [note]) == Decrements(notes) + if Decrement(note) then 1 else 0
  {
  }

  /** DELETED events the monitor may still publish: scheduled ahead, pending, or taken out. */
  function Upcoming(s: Slice, todo: seq<Act>): nat {
    Scheduled(todo)
    + (if s.pending.Some? && s.pending.value.status == DELETED then 1 else 0)
    + (if s.held.Some? && s.held.value.status == DELETED then 1 else 0)
  }

  function Scheduled(todo: seq<Act>): nat {
    if todo == [] then 0
    else (if todo[0].Schedule? && todo[0].status == DELETED then 1 else 0) + Scheduled(todo[1..])
  }

  function TodoOf(p: PollPc): seq<Act> {
    if p.Busy? then p.todo else []
  }

  function Done(h: DeletePc): nat {
    if h.Finished? then 1 else 0
  }

  function Said(h: DeletePc): nat {
    if h.Spoken? || h.Erased? || h.Finished? then 1 else 0
  }

  // ---------- Programs ----------

  predicate HarmlessAct(act: Act) {
    act.Emit? || act.Flush? || (act.SetStatus? && !Leaving(act.status)) || (act.Schedule? && act.status != DELETED)
  }

  /** A program that removes nothing. */
  predicate Harmless(todo: seq<Act>) {
    forall i :: 0 <= i < |todo| ==> HarmlessAct(todo[i])
  }

  /** Only the acts a poll's program is made of. */
  predicate PollAct(act: Act) {
    || HarmlessAct(act)
    || act == Erase || act == Forget || (act.Count? && act.delta == -1) || (act.Schedule? && act.status == DELETED)
  }

  predicate PollProgram(todo: seq<Act>) {
    forall i :: 0 <= i < |todo| ==> PollAct(todo[i])
  }

  ghost predicate RowIs(row: Option<Entry>, id: string, kind: string, name: string) {
    KnownKind(kind) && (row.Some? ==> row.value.kind == kind && row.value.kcliName == name && row.value.id == id)
  }

  /** A poll removes a row it found missing from kweb, unless it is leaving or a cluster still being created. */
  ghost predicate SetsOutToRemove(row: Option<Entry>, view: View, kind: string, name: string) {
    && row.Some? && Shown(view, kind).Some? && name !in Shown(view, kind).value
    && !Leaving(row.value.status) && (kind == CLUSTER ==> row.value.status != CREATING)
  }

  /** A program either is harmless, or removes: one DELETED scheduled, one decrement owed. */
  lemma ProgramShape(cfg: Config, row: Option<Entry>, view: View, id: string, kind: string, name: string)
    requires RowIs(row, id, kind, name)
    ensures var todo := Program(cfg, row, view, id);
            && PollProgram(todo)
            && Scheduled(todo) == Owed(todo) <= 1
            && (Owed(todo) == 0 ==> Harmless(todo))
            && (Owed(todo) == 1 <==> SetsOutToRemove(row, view, kind, name))
  {
    hide MapVmStatus, MapClusterStatus;
    var tail := [Flush(view.flush(id)), Emit];
    FlushOwesNothing(tail);
    hide Owed, Scheduled;
    assert [] + tail == tail;
    assert VM != CLUSTER && !Leaving(CREATING) && !Leaving(ERROR);
    if row.Some? {
      var e, tick := row.value, view.tick(row.value.id);
      match Decide(cfg, e, view) {
        case Keep =>
        case Remove => RemovalOwes(kind, tick, tail);
        case Become(status) =>
          BecomesLive(cfg, e, view);
          ReportOwes(kind, status, tick, tail);
      }
    }
  }

  lemma BecomesLive(cfg: Config, e: Entry, view: View)
    requires Decide(cfg, e, view).Become?
    ensures !Leaving(Decide(cfg, e, view).status)
  {
    hide MapVmStatus, MapClusterStatus;
    assert VM != CLUSTER && !Leaving(ERROR);
    var age := view.tick(e.id).observe - e.createdAt;
    if e.kind == VM {
      VmStatusRange(view.vms.value[e.kcliName], age);
    } else if e.kcliName in view.clusters.value {
      ClusterStatusRange(view.clusters.value[e.kcliName], age, cfg.createTimeout);
    }
  }

  lemma OwesCons(act: Act, rest: seq<Act>)
    ensures Owed([act] + rest) == (if act.Count? && act.delta < 0 then 1 else 0) + Owed(rest)
    ensures Scheduled([act] + rest) == (if act.Schedule? && act.status == DELETED then 1 else 0) + Scheduled(rest)
    ensures PollProgram([act] + rest) <==> PollAct(act) && PollProgram(rest)
    ensures Harmless([act] + rest) <==> HarmlessAct(act) && Harmless(rest)
  {
    var todo := [act] + rest;
    assert todo[1..] == rest && todo[0] == act;
    assert PollProgram(todo) ==> forall i :: 0 <= i < |rest| ==> PollAct(rest[i]) by {
      assert forall i :: 0 <= i < |rest| ==> todo[i + 1] == rest[i];
    }
    assert Harmless(todo) ==> forall i :: 0 <= i < |rest| ==> HarmlessAct(rest[i]) by {
      assert forall i :: 0 <= i < |rest| ==> todo[i + 1] == rest[i];
    }
  }

  lemma RemovalOwes(kind: string, tick: Tick, tail: seq<Act>)
    requires Owed(tail) == 0 && Scheduled(tail) == 0 && Harmless(tail)
    ensures var todo := Carry(kind, Remove, tick) + tail;
            Owed(todo) == 1 && Scheduled(todo) == 1 && PollProgram(todo)
  {
    HarmlessIsProgram(tail);
    CarryAnd(kind, "", tick, tail);
    hide Owed, Scheduled, PollProgram, Harmless, Carry;
    var t4 := [Forget] + tail;
    var t3 := [Count(kind, -1)] + t4;
    var t2 := [Erase] + t3;
    var t1 := [Emit] + t2;
    OwesCons(Forget, tail);
    OwesCons(Count(kind, -1), t4);
    OwesCons(Erase, t3);
    OwesCons(Emit, t2);
    OwesCons(Schedule(kind, DELETED, tick), t1);
  }

  lemma HarmlessIsProgram(todo: seq<Act>)
    requires Harmless(todo)
    ensures PollProgram(todo)
  {
  }

  lemma ReportOwes(kind: string, status: string, tick: Tick, tail: seq<Act>)
    requires Owed(tail) == 0 && Scheduled(tail) == 0 && Harmless(tail) && !Leaving(status)
    ensures var todo := Carry(kind, Become(status), tick) + tail;
            Owed(todo) == 0 && Scheduled(todo) == 0 && Harmless(todo)
  {
    CarryAnd(kind, status, tick, tail);
    hide Owed, Scheduled, PollProgram, Harmless, Carry;
    var t2 := [SetStatus(status)] + tail;
    var t1 := [Emit] + t2;
    OwesCons(SetStatus(status), tail);
    OwesCons(Emit, t2);
    OwesCons(Schedule(kind, status, tick), t1);
  }

  // ---------- The invariant ----------

  /** A stored resource that kweb has, no delete in progress, nothing about a deletion in the debounce state. */
  ghost predicate Initial(s: Sys) {
    && s.slice.row.Some? && RowIs(s.slice.row, s.slice.id, s.kind, s.name) && !Leaving(s.slice.row.value.status)
    && s.inKweb && s.handler == Start && s.poll == Resting && s.overlaps == 0 && s.removals == 0
    && Upcoming(s.slice, []) == 0
  }

  /** Accounts: every decrement and every DELETED is the request's own or one of the removals'. */
  ghost predicate Accounts(s: Sys, deleted0: nat, decrements0: nat) {
    && Decrements(s.slice.notes) + Owed(TodoOf(s.poll)) == decrements0 + Done(s.handler) + s.removals
    && deleted0 + Said(s.handler) <= DeletedNotes(s.slice.notes)
    && DeletedNotes(s.slice.notes) + Upcoming(s.slice, TodoOf(s.poll)) <= deleted0 + Said(s.handler) + s.removals
  }

  /** Control: what each side's position says about kweb, the row and the other side. */
  ghost predicate Control(s: Sys) {
    && RowIs(s.slice.row, s.slice.id, s.kind, s.name)
    && PollProgram(TodoOf(s.poll))
    && (s.removals == 0 ==> Harmless(TodoOf(s.poll)))
    && (s.inKweb <==>
          s.handler.Start? || s.handler.Got? || s.handler.Marked? || s.handler.Refused? || s.handler.Failed?)
    && !s.handler.Declined?
    && (s.inKweb ==> s.removals == 0 && s.slice.row.Some?)
    && (s.inKweb && s.poll.Listed? && Shown(s.poll.view, s.kind).Some? ==> s.name in Shown(s.poll.view, s.kind).value)
    && (s.handler.Start? ==> !Leaving(s.slice.row.value.status))
    && (s.handler.Got? ==> !Leaving(s.handler.was.status))
    && (s.handler.Erased? || s.handler.Finished? ==> s.slice.row.None?)
  }

  /** While at most one poll has overlapped, no poll has anything to remove. */
  ghost predicate Shielded(s: Sys) {
    s.overlaps <= 1 ==>
      && s.removals == 0
      && (s.overlaps == 0 && Active(s.handler) ==> s.poll.Resting?)
      && (s.overlaps == 0 && (s.handler.Marked? || s.handler.Refused? || s.handler.Gone? || s.handler.Spoken?) ==>
            s.slice.row.Some? && s.slice.row.value.status == DELETING)
      && (s.poll.Listed? && Shown(s.poll.view, s.kind).Some? && s.name !in Shown(s.poll.view, s.kind).value ==>
            s.slice.row.None? || s.slice.row.value.status == DELETING)
  }

  lemma ActAccounts(cfg: Config, s: Slice, todo: seq<Act>)
    requires todo != [] && PollAct(todo[0])
    ensures var t := StepSlice(cfg, s, todo[0]);
            && Decrements(t.notes) + Owed(todo[1..]) == Decrements(s.notes) + Owed(todo)
            && DeletedNotes(s.notes) <= DeletedNotes(t.notes)
            && DeletedNotes(t.notes) + Upcoming(t, todo[1..]) <= DeletedNotes(s.notes) + Upcoming(s, todo)
  {
  }

  lemma HandlerAccounts(cfg: Config, s: Sys, kwebOk: bool, deleted0: nat, decrements0: nat)
    requires Accounts(s, deleted0, decrements0)
    ensures Accounts(HandlerNext(cfg, s, kwebOk), deleted0, decrements0)
  {
    hide DeletedNotes, Decrements, Owed, Scheduled;
    match s.handler {
      case Gone => CountsSnoc(s.slice.notes, Announced(s.kind, DELETED));
      case Erased => CountsSnoc(s.slice.notes, Counted(s.kind, -1));
      case _ =>
    }
  }

  /** The closing flush owes and schedules nothing, so leaving it out settles nothing. */
  lemma FlushOwesNothing(todo: seq<Act>)
    requires |todo| == 2 && todo[0].Flush? && todo[1].Emit?
    ensures Owed(todo) == 0 && Scheduled(todo) == 0
  {
    var last := todo[1..];
    assert last == [todo[1]] && last[1..] == [];
    assert Owed(last[1..]) == 0 && Scheduled(last[1..]) == 0;
    assert Owed(last) == 0 && Scheduled(last) == 0;
  }

  lemma BusyAccounts(cfg: Config, s: Sys, deleted0: nat, decrements0: nat)
    requires Accounts(s, deleted0, decrements0) && PollProgram(TodoOf(s.poll)) && s.poll.Busy?
    ensures Accounts(PollNext(cfg, s, PollActs), deleted0, decrements0)
  {
    var todo := s.poll.todo;
    if todo != [] && NothingDue(cfg, s.slice, todo) {
      FlushOwesNothing(todo);
    } else if todo != [] {
      ActAccounts(cfg, s.slice, todo);
      hide StepSlice, DeletedNotes, Decrements;
    }
  }

  lemma ReadAccounts(cfg: Config, s: Sys, deleted0: nat, decrements0: nat)
    requires Accounts(s, deleted0, decrements0) && Control(s) && s.poll.Listed?
    ensures Accounts(PollNext(cfg, s, PollReads), deleted0, decrements0)
  {
    hide DeletedNotes, Decrements, Program;
    ProgramShape(cfg, s.slice.row, s.poll.view, s.slice.id, s.kind, s.name);
  }

  lemma PollAccounts(cfg: Config, s: Sys, move: Move, deleted0: nat, decrements0: nat)
    requires Accounts(s, deleted0, decrements0) && Control(s)
    ensures Accounts(PollNext(cfg, s, move), deleted0, decrements0)
  {
    if move.PollReads? && s.poll.Listed? {
      ReadAccounts(cfg, s, deleted0, decrements0);
    } else if move.PollActs? && s.poll.Busy? {
      BusyAccounts(cfg, s, deleted0, decrements0);
    } else {
      hide DeletedNotes, Decrements, Owed, Scheduled;
    }
  }

  lemma HandlerControl(cfg: Config, s: Sys, kwebOk: bool)
    requires Control(s)
    ensures Control(HandlerNext(cfg, s, kwebOk))
  {
  }

  lemma PollControl(cfg: Config, s: Sys, move: Move)
    requires Control(s)
    ensures Control(PollNext(cfg, s, move))
  {
    if move.PollReads? && s.poll.Listed? {
      ProgramShape(cfg, s.slice.row, s.poll.view, s.slice.id, s.kind, s.name);
    } else if move.PollActs? && s.poll.Busy? && s.poll.todo != [] {
      var todo := s.poll.todo;
      assert PollAct(todo[0]) && PollProgram(todo[1..]);
      assert s.removals == 0 ==> Harmless(todo[1..]);
      assert s.removals == 0 ==> HarmlessAct(s.poll.todo[0]);
    }
  }

  lemma HandlerShielded(cfg: Config, s: Sys, kwebOk: bool)
    requires Control(s) && Shielded(s)
    ensures Shielded(HandlerNext(cfg, s, kwebOk))
  {
  }

  lemma PollShielded(cfg: Config, s: Sys, move: Move)
    requires Control(s) && Shielded(s)
    ensures Shielded(PollNext(cfg, s, move))
  {
    if move.PollReads? && s.poll.Listed? {
      ProgramShape(cfg, s.slice.row, s.poll.view, s.slice.id, s.kind, s.name);
    }
  }

  /** The invariant holds after every interleaving of one delete request with any number of polls. */
  lemma {:induction false} EveryInterleaving(cfg: Config, s: Sys, moves: seq<Move>)
    requires Initial(s)
    ensures var t := RunMoves(cfg, s, moves);
            Control(t) && Shielded(t) && Accounts(t, DeletedNotes(s.slice.notes), Decrements(s.slice.notes))
  {
    hide Control, Shielded, Accounts, HandlerNext, PollNext;
    var deleted0, decrements0 := DeletedNotes(s.slice.notes), Decrements(s.slice.notes);
    if moves == [] {
      InitialHolds(s);
    } else {
      var init, move := moves[..|moves| - 1], moves[|moves| - 1];
      EveryInterleaving(cfg, s, init);
      var t := RunMoves(cfg, s, init);
      if move.HandlerStep? {
        HandlerControl(cfg, t, move.kwebOk);
        HandlerShielded(cfg, t, move.kwebOk);
        HandlerAccounts(cfg, t, move.kwebOk, deleted0, decrements0);
      } else {
        PollControl(cfg, t, move);
        PollShielded(cfg, t, move);
        PollAccounts(cfg, t, move, deleted0, decrements0);
      }
    }
  }

  lemma InitialHolds(s: Sys)
    requires Initial(s)
    ensures Control(s) && Shielded(s) && Accounts(s, DeletedNotes(s.slice.notes), Decrements(s.slice.notes))
  {
  }

  /**
   Exactly-once deletion: if at most one poll overlaps a delete request that succeeds, then in every
   interleaving exactly one DELETED and one gauge decrement have occurred and the row is gone.
  */
  lemma DeletedExactlyOnce(cfg: Config, s: Sys, moves: seq<Move>)
    requires Initial(s)
    ensures var t := RunMoves(cfg, s, moves);
            t.handler.Finished? && t.overlaps <= 1 ==>
              && t.slice.row.None?
              && DeletedNotes(t.slice.notes) == DeletedNotes(s.slice.notes) + 1
              && Decrements(t.slice.notes) == Decrements(s.slice.notes) + 1
  {
    EveryInterleaving(cfg, s, moves);
    var t := RunMoves(cfg, s, moves);
    if t.handler.Finished? && t.overlaps <= 1 {
      HarmlessOwesNothing(TodoOf(t.poll));
    }
  }

  lemma {:induction false} HarmlessOwesNothing(todo: seq<Act>)
    requires Harmless(todo)
    ensures Owed(todo) == 0 && Scheduled(todo) == 0
  {
    if todo != [] {
      assert Harmless(todo[1..]);
      assert HarmlessAct(todo[0]);
      HarmlessOwesNothing(todo[1..]);
    }
  }

  /**
   With any number of overlapping polls: once the request has finished and the poll rests, the gauge has
   dropped once for the request and once for each poll that set out to remove the row. So the deletion
   is counted exactly once exactly when no poll read a row it then found missing from kweb.
  */
  lemma DecrementsExplained(cfg: Config, s: Sys, moves: seq<Move>)
    requires Initial(s)
    ensures var t := RunMoves(cfg, s, moves);
            t.handler.Finished? && t.poll.Resting? ==>
              && t.slice.row.None?
              && Decrements(t.slice.notes) == Decrements(s.slice.notes) + 1 + t.removals
              && DeletedNotes(s.slice.notes) + 1 <= DeletedNotes(t.slice.notes)
              && DeletedNotes(t.slice.notes) <= DeletedNotes(s.slice.notes) + 1 + t.removals
  {
    EveryInterleaving(cfg, s, moves);
  }

  /** A delete request that kweb refuses: whatever the polls do, nothing is deleted, announced or uncounted. */
  lemma RefusedDeleteLeavesRow(cfg: Config, s: Sys, moves: seq<Move>)
    requires Initial(s)
    ensures var t := RunMoves(cfg, s, moves);
            t.handler.Failed? || t.handler.Refused? ==>
              && t.slice.row.Some?
              && DeletedNotes(t.slice.notes) == DeletedNotes(s.slice.notes)
              && Decrements(t.slice.notes) == Decrements(s.slice.notes)
  {
    EveryInterleaving(cfg, s, moves);
    var t := RunMoves(cfg, s, moves);
    if t.handler.Failed? || t.handler.Refused? {
      HarmlessOwesNothing(TodoOf(t.poll));
    }
  }

  // ---------- Two overlapping polls are too many ----------

  lemma {:induction false} RunMovesAppend(cfg: Config, s: Sys, a: seq<Move>, b: seq<Move>)
    ensures RunMoves(cfg, s, a + b) == RunMoves(cfg, RunMoves(cfg, s, a), b)
  {
    if b == [] {
      assert a + b == a;
    } else {
      assert (a + b)[..|a + b| - 1] == a + b[..|b| - 1];
      RunMovesAppend(cfg, s, a, b[..|b| - 1]);
    }
  }

  lemma RunOne(cfg: Config, s: Sys, move: Move)
    ensures RunMoves(cfg, s, [move]) == Next(cfg, s, move)
  {
  }

  function Acting(n: nat): seq<Move> {
    if n == 0 then [] else [PollActs] + Acting(n - 1)
  }

  /** A closing flush with nothing due would have changed nothing. */
  lemma NothingDueSkips(cfg: Config, s: Slice, todo: seq<Act>)
    requires NothingDue(cfg, s, todo)
    ensures ExecSlice(cfg, s, todo) == s
  {
    assert todo == [todo[0]] + ([todo[1]] + []);
    ExecSliceCons(cfg, s, todo[0], [todo[1]] + []);
    ExecSliceCons(cfg, StepSlice(cfg, s, todo[0]), todo[1], []);
  }

  lemma {:induction false} RestingStays(cfg: Config, s: Sys, n: nat)
    requires s.poll.Resting?
    ensures RunMoves(cfg, s, Acting(n)) == s
  {
    hide RunMoves;
    if n > 0 {
      RestingStays(cfg, s, n - 1);
      RunOne(cfg, s, PollActs);
      RunMovesAppend(cfg, s, [PollActs], Acting(n - 1));
    } else {
      NoMoves(cfg, s);
    }
  }

  lemma NoMoves(cfg: Config, s: Sys)
    ensures RunMoves(cfg, s, []) == s
  {
  }

  lemma {:induction false} ProgramRuns(cfg: Config, s: Sys)
    requires s.poll.Busy?
    ensures RunMoves(cfg, s, Acting(|s.poll.todo| + 1))
            == s.(slice := ExecSlice(cfg, s.slice, s.poll.todo), poll := Resting)
    decreases |TodoOf(s.poll)|
  {
    hide RunMoves, ExecSlice;
    var todo := s.poll.todo;
    var t := Next(cfg, s, PollActs);
    RunMovesAppend(cfg, s, [PollActs], Acting(|todo|));
    RunOne(cfg, s, PollActs);
    if todo == [] {
      RestingStays(cfg, t, 0);
      NoActs(cfg, s.slice);
    } else if NothingDue(cfg, s.slice, todo) {
      RestingStays(cfg, t, |todo|);
      NothingDueSkips(cfg, s.slice, todo);
    } else {
      ProgramRuns(cfg, t);
      ExecSliceCons(cfg, s.slice, todo[0], todo[1..]);
      assert todo == [todo[0]] + todo[1..];
    }
  }

  function PollMoves(cfg: Config, s: Sys, view: View): seq<Move> {
    [PollBegins(view), PollReads] + Acting(|Program(cfg, s.slice.row, view, s.slice.id)| + 1)
  }

  lemma ProgramPolls(cfg: Config, s: Slice, view: View)
    requires s.held.None? && (s.row.Some? ==> s.row.value.id == s.id)
    ensures ExecSlice(cfg, s, Program(cfg, s.row, view, s.id)) == Polled(cfg, s, view)
  {
    hide DecideRow, ExecSlice;
    ExecSliceAppend(cfg, s, DecideRow(cfg, s.row, view), [Flush(view.flush(s.id)), Emit]);
    VisitedByActs(cfg, s, view);
    FlushedByActs(cfg, Reviewed(cfg, s, view), view.flush(s.id));
  }

  /** A poll that runs undisturbed does to the slice what `Polled` says. */
  lemma WholePoll(cfg: Config, s: Sys, view: View)
    requires s.poll.Resting? && Honest(view, s.kind, s.name, s.inKweb)
    requires s.slice.held.None? && RowIs(s.slice.row, s.slice.id, s.kind, s.name)
    ensures RunMoves(cfg, s, PollMoves(cfg, s, view))
            == s.(slice := Polled(cfg, s.slice, view),
                  overlaps := s.overlaps + if Active(s.handler) then 1 else 0,
                  removals := s.removals + Owed(Program(cfg, s.slice.row, view, s.slice.id)))
  {
    hide RunMoves, Program, ExecSlice, Polled, Owed;
    var todo := Program(cfg, s.slice.row, view, s.slice.id);
    var s1 := Next(cfg, s, PollBegins(view));
    var s2 := Next(cfg, s1, PollReads);
    RunOne(cfg, s, PollBegins(view));
    RunOne(cfg, s1, PollReads);
    RunMovesAppend(cfg, s, [PollBegins(view)], [PollReads]);
    assert [PollBegins(view)] + [PollReads] == [PollBegins(view), PollReads];
    RunMovesAppend(cfg, s, [PollBegins(view), PollReads], Acting(|todo| + 1));
    ProgramRuns(cfg, s2);
    ProgramPolls(cfg, s.slice, view);
  }

  /** A view that lists the one resource or nothing, with every clock reading at `now`. */
  function ViewAt(kind: string, names: set<string>, now: int): View {
    View(if kind == VM then Some(map name | name in names :: "up") else None,
         if kind == VM then None else Some(map name | name in names :: true),
         (id: string) => Tick(now, now, now, now), (id: string) => Tick(now, now, now, now))
  }

  /** What a listed resource is reported as under such a view. */
  function LiveStatus(kind: string): string {
    if kind == VM then RUNNING else ACTIVE
  }

  lemma ThreeHandlerSteps(cfg: Config, s: Sys)
    requires s.handler.Gone?
    ensures RunMoves(cfg, s, [HandlerStep(true), HandlerStep(true), HandlerStep(true)])
            == s.(handler := Finished,
                  slice := s.slice.(row := None,
                                    notes := s.slice.notes + [Announced(s.kind, DELETED)] + [Counted(s.kind, -1)]))
  {
    var h := HandlerStep(true);
    var s1 := Next(cfg, s, h);
    var s2 := Next(cfg, s1, h);
    RunOne(cfg, s, h);
    RunOne(cfg, s1, h);
    RunOne(cfg, s2, h);
    RunMovesAppend(cfg, s, [h], [h]);
    RunMovesAppend(cfg, s, [h] + [h], [h]);
    assert [h] + [h] + [h] == [h, h, h];
  }

  /** A request's own steps, from the first to the last. */
  function RequestMoves(kwebOk: bool): seq<Move> {
    [HandlerStep(true)] + [HandlerStep(true)] + [HandlerStep(kwebOk)]
    + if kwebOk then [HandlerStep(true), HandlerStep(true), HandlerStep(true)] else [HandlerStep(true)]
  }

  /** An undisturbed request is a deletion round, or when kweb refuses it leaves the row as it was. */
  lemma WholeRequest(cfg: Config, s: Sys, kwebOk: bool)
    requires s.handler.Start? && s.slice.row.Some? && !Leaving(s.slice.row.value.status)
    ensures var t := RunMoves(cfg, s, RequestMoves(kwebOk));
            if kwebOk then
              t == s.(slice := SliceRound(cfg, s.slice, DeleteRound(s.kind, s.slice.id)), handler := Finished,
                      inKweb := false, overlaps := t.overlaps)
            else t == s.(handler := Failed, overlaps := t.overlaps)
  {
    hide RunMoves;
    var h, k := HandlerStep(true), HandlerStep(kwebOk);
    var s1 := Next(cfg, s, h);
    var s2 := Next(cfg, s1, h);
    var s3 := Next(cfg, s2, k);
    RunOne(cfg, s, h);
    RunOne(cfg, s1, h);
    RunOne(cfg, s2, k);
    RunMovesAppend(cfg, s, [h], [h]);
    RunMovesAppend(cfg, s, [h] + [h], [k]);
    if kwebOk {
      ThreeHandlerSteps(cfg, s3);
      RunMovesAppend(cfg, s, [h] + [h] + [k], [h, h, h]);
      assert s.slice.notes + [Announced(s.kind, DELETED)] + [Counted(s.kind, -1)]
             == s.slice.notes + [Announced(s.kind, DELETED), Counted(s.kind, -1)];
    } else {
      RunOne(cfg, s3, h);
      RunMovesAppend(cfg, s, [h] + [h] + [k], [h]);
      var e := s.slice.row.value;
      assert e.(status := DELETING).(status := e.status) == e;
    }
  }

  /** The request marks the row; a whole poll still finds the resource in kweb and overwrites DELETING. */
  lemma MarkedThenRevived(cfg: Config, s: Sys) returns (moves: seq<Move>, now: int)
    requires Initial(s) && s.slice.held.None?
    ensures var t := RunMoves(cfg, s, moves);
            && t.handler.Marked? && t.poll.Resting? && t.inKweb && t.overlaps == 1
            && t.name == s.name && t.kind == s.kind
            && t.slice.row.Some? && t.slice.row.value.status == LiveStatus(s.kind)
            && RowIs(t.slice.row, t.slice.id, t.kind, t.name)
            && t.slice.last == Some(now) && t.slice.held.None?
            && DeletedNotes(t.slice.notes) == DeletedNotes(s.slice.notes)
            && Decrements(t.slice.notes) == Decrements(s.slice.notes)
  {
    hide Polled, RunMoves, Owed, DeletedNotes, Decrements;
    var h := HandlerStep(true);
    var s1 := Next(cfg, s, h);
    var s2 := Next(cfg, s1, h);
    RunOne(cfg, s, h);
    RunOne(cfg, s1, h);
    RunMovesAppend(cfg, s, [h], [h]);
    now := if s.slice.last.Some? then s.slice.last.value + cfg.window else 0;
    var up := ViewAt(s.kind, {s.name}, now);
    WholePoll(cfg, s2, up);
    FirstPollRevives(cfg, s2, now);
    RunMovesAppend(cfg, s, [h] + [h], PollMoves(cfg, s2, up));
    moves := [h] + [h] + PollMoves(cfg, s2, up);
  }

  /** kweb deletes the resource; a whole poll misses it and removes the revived row; the request finishes. */
  lemma RevivedThenRemoved(cfg: Config, s: Sys, now: int) returns (moves: seq<Move>)
    requires s.handler.Marked? && s.poll.Resting? && s.inKweb && s.overlaps == 1
    requires s.slice.row.Some? && s.slice.row.value.status == LiveStatus(s.kind)
    requires RowIs(s.slice.row, s.slice.id, s.kind, s.name) && s.slice.last == Some(now) && s.slice.held.None?
    ensures var t := RunMoves(cfg, s, moves);
            && t.handler.Finished? && t.overlaps == 2
            && DeletedNotes(t.slice.notes) == DeletedNotes(s.slice.notes) + 2
            && Decrements(t.slice.notes) == Decrements(s.slice.notes) + 2
  {
    hide Polled, RunMoves, Owed, DeletedNotes, Decrements;
    var h := HandlerStep(true);
    var s1 := Next(cfg, s, h);
    RunOne(cfg, s, h);
    var empty := ViewAt(s.kind, {}, now + cfg.window);
    SecondPollRemoves(cfg, s1, now);
    WholePoll(cfg, s1, empty);
    var s2 := RunMoves(cfg, s1, PollMoves(cfg, s1, empty));
    RunMovesAppend(cfg, s, [h], PollMoves(cfg, s1, empty));
    ThreeHandlerSteps(cfg, s2);
    RunMovesAppend(cfg, s, [h] + PollMoves(cfg, s1, empty), [h, h, h]);
    moves := [h] + PollMoves(cfg, s1, empty) + [h, h, h];
    CountsSnoc(s2.slice.notes, Announced(s.kind, DELETED));
    CountsSnoc(s2.slice.notes + [Announced(s.kind, DELETED)], Counted(s.kind, -1));
  }

  /**
   The bound on overlapping polls cannot be dropped. From every initial state some schedule with two
   overlapping polls deletes twice: the first overwrites DELETING while kweb still lists the resource, and
   the second then finds a live row whose resource is gone.
  */
  lemma TwoPollsDeleteTwice(cfg: Config, s: Sys)
    requires Initial(s) && s.slice.held.None?
    ensures exists moves :: var t := RunMoves(cfg, s, moves);
              && t.handler.Finished? && t.overlaps == 2
              && DeletedNotes(t.slice.notes) == DeletedNotes(s.slice.notes) + 2
              && Decrements(t.slice.notes) == Decrements(s.slice.notes) + 2
  {
    hide RunMoves, DeletedNotes, Decrements;
    var a, now := MarkedThenRevived(cfg, s);
    var b := RevivedThenRemoved(cfg, RunMoves(cfg, s, a), now);
    RunMovesAppend(cfg, s, a, b);
    var t := RunMoves(cfg, s, a + b);
    assert t.handler.Finished?;
  }

  lemma ListedBecomesLive(cfg: Config, e: Entry, now: int)
    requires KnownKind(e.kind) && Leaving(e.status)
    ensures Decide(cfg, e, ViewAt(e.kind, {e.kcliName}, now)) == Become(LiveStatus(e.kind))
    ensures !Leaving(LiveStatus(e.kind)) && LiveStatus(e.kind) != CREATING
  {
    assert EqualFold("up", "up");
    assert VM != CLUSTER && RUNNING[0] == 'R' && ACTIVE[0] == 'A' && CREATING[0] == 'C';
  }

  lemma FirstPollRevives(cfg: Config, s: Sys, now: int)
    requires s.handler.Marked? && s.slice.row.Some? && s.slice.row.value.status == DELETING
    requires RowIs(s.slice.row, s.slice.id, s.kind, s.name)
    requires s.slice.last.Some? ==> now - s.slice.last.value >= cfg.window
    ensures var t := Polled(cfg, s.slice, ViewAt(s.kind, {s.name}, now));
            && t.row == Some(s.slice.row.value.(status := LiveStatus(s.kind))) && t.last == Some(now)
            && t.pending.None? && t.held == s.slice.held && t.id == s.slice.id
            && DeletedNotes(t.notes) == DeletedNotes(s.slice.notes) && Decrements(t.notes) == Decrements(s.slice.notes)
  {
    hide DeletedNotes, Decrements, Decide;
    ListedBecomesLive(cfg, s.slice.row.value, now);
    CountsSnoc(s.slice.notes, Published(Event(s.kind, LiveStatus(s.kind), now)));
  }

  lemma UnlistedIsRemoved(cfg: Config, e: Entry, now: int)
    requires KnownKind(e.kind) && e.status == LiveStatus(e.kind)
    ensures Decide(cfg, e, ViewAt(e.kind, {}, now)) == Remove
  {
    assert VM != CLUSTER && RUNNING[0] == 'R' && ACTIVE[0] == 'A';
  }

  lemma SecondPollRemoves(cfg: Config, s: Sys, now: int)
    requires s.slice.row.Some? && s.slice.row.value.status == LiveStatus(s.kind) && s.slice.last == Some(now)
    requires RowIs(s.slice.row, s.slice.id, s.kind, s.name)
    ensures var t := Polled(cfg, s.slice, ViewAt(s.kind, {}, now + cfg.window));
            && t.row.None? && t.id == s.slice.id
            && DeletedNotes(t.notes) == DeletedNotes(s.slice.notes) + 1
            && Decrements(t.notes) == Decrements(s.slice.notes) + 1
  {
    hide DeletedNotes, Decrements, Decide;
    UnlistedIsRemoved(cfg, s.slice.row.value, now + cfg.window);
    var told := s.slice.notes + [Published(Event(s.kind, DELETED, now + cfg.window))];
    CountsSnoc(s.slice.notes, Published(Event(s.kind, DELETED, now + cfg.window)));
    CountsSnoc(told, Counted(s.kind, -1));
    CountsSnoc(told + [Counted(s.kind, -1)], Forgotten);
  }

  // ---------- In the world ----------

  /** The atomic step on the shared state that a move makes, if any. */
  function ActOf(cfg: Config, s: Sys, move: Move): seq<Act> {
    match move
    case HandlerStep(_) =>
      (match s.handler
       case Got(_) => [SetStatus(DELETING)]
       case Refused(was) => [SetStatus(was.status)]
       case Gone => [Announce(s.kind, DELETED)]
       case Spoken => [Erase]
       case Erased => [Count(s.kind, -1)]
       case _ => [])
    case PollActs =>
      if s.poll.Busy? && s.poll.todo != [] && !NothingDue(cfg, s.slice, s.poll.todo) then [s.poll.todo[0]] else []
    case _ => []
  }

  function ActsOf(cfg: Config, s: Sys, moves: seq<Move>): seq<Act> {
    if moves == [] then []
    else
      var init := moves[..|moves| - 1];
      ActsOf(cfg, s, init) + ActOf(cfg, RunMoves(cfg, s, init), moves[|moves| - 1])
  }

  lemma MoveActs(cfg: Config, s: Sys, move: Move, first: Slice, acts: seq<Act>)
    requires s.slice == ExecSlice(cfg, first, acts)
    ensures Next(cfg, s, move).slice == ExecSlice(cfg, first, acts + ActOf(cfg, s, move))
  {
    hide ExecSlice;
    var act := ActOf(cfg, s, move);
    assert acts + [] == acts;
    if act != [] {
      ExecSliceLast(cfg, first, acts, act[0]);
    }
  }

  lemma {:induction false} MovesAct(cfg: Config, s: Sys, moves: seq<Move>)
    ensures RunMoves(cfg, s, moves).slice == ExecSlice(cfg, s.slice, ActsOf(cfg, s, moves))
  {
    hide Next, ActOf;
    if moves != [] {
      var init := moves[..|moves| - 1];
      MovesAct(cfg, s, init);
      MoveActs(cfg, RunMoves(cfg, s, init), moves[|moves| - 1], s.slice, ActsOf(cfg, s, init));
    }
  }

  lemma {:induction false} ActsOfAppend(cfg: Config, s: Sys, a: seq<Move>, b: seq<Move>)
    ensures ActsOf(cfg, s, a + b) == ActsOf(cfg, s, a) + ActsOf(cfg, RunMoves(cfg, s, a), b)
  {
    hide ActOf, RunMoves;
    if b == [] {
      assert a + b == a;
    } else {
      assert (a + b)[..|a + b| - 1] == a + b[..|b| - 1];
      ActsOfAppend(cfg, s, a, b[..|b| - 1]);
      RunMovesAppend(cfg, s, a, b[..|b| - 1]);
    }
  }

  lemma ActsOfOne(cfg: Config, s: Sys, move: Move)
    ensures ActsOf(cfg, s, [move]) == ActOf(cfg, s, move)
  {
    assert [move][..0] == [];
  }

  /** What a program comes to do: all of it, but for a closing flush with nothing due. */
  function Effective(cfg: Config, s: Slice, todo: seq<Act>): seq<Act>
    decreases |todo|
  {
    if todo == [] || NothingDue(cfg, s, todo) then []
    else [todo[0]] + Effective(cfg, StepSlice(cfg, s, todo[0]), todo[1..])
  }

  lemma {:induction false} EffectiveAfter(cfg: Config, s: Slice, acts: seq<Act>, flush: Tick)
    requires forall i :: 0 <= i < |acts| ==> !acts[i].Flush?
    ensures Effective(cfg, s, acts + [Flush(flush), Emit])
            == acts + Effective(cfg, ExecSlice(cfg, s, acts), [Flush(flush), Emit])
    decreases |acts|
  {
    hide ExecSlice;
    var tail := [Flush(flush), Emit];
    if acts == [] {
      assert acts + tail == tail;
      NoActs(cfg, s);
    } else {
      assert (acts + tail)[1..] == acts[1..] + tail && acts == [acts[0]] + acts[1..];
      EffectiveAfter(cfg, StepSlice(cfg, s, acts[0]), acts[1..], flush);
      ExecSliceCons(cfg, s, acts[0], acts[1..]);
    }
  }

  lemma EffectiveFlush(cfg: Config, s: Slice, flush: Tick)
    requires s.held.None?
    ensures Effective(cfg, s, [Flush(flush), Emit])
            == if s.pending.Some? && Open(cfg, s.last, flush.check) then [Flush(flush), Emit] else []
  {
    var todo, t := [Flush(flush), Emit], StepSlice(cfg, s, Flush(flush));
    assert todo[1..] == [Emit] && [Emit][1..] == [];
    assert Effective(cfg, t, [Emit]) == [Emit] + Effective(cfg, StepSlice(cfg, t, Emit), []);
  }

  lemma ReviewHoldsNothing(cfg: Config, s: Slice, view: View)
    requires s.held.None?
    ensures Reviewed(cfg, s, view).held.None?
  {
  }

  lemma ReviewedId(cfg: Config, s: Slice, view: View)
    ensures Reviewed(cfg, s, view).id == s.id
  {
  }

  lemma NoFlushDecided(cfg: Config, row: Option<Entry>, view: View, i: int)
    requires 0 <= i < |DecideRow(cfg, row, view)|
    ensures !DecideRow(cfg, row, view)[i].Flush?
  {
    hide Decide;
  }

  /** The steps a poll's program comes to make are the steps of a poll for that id. */
  lemma ProgramIsPoll(cfg: Config, s: Slice, view: View)
    requires s.held.None? && (s.row.Some? ==> s.row.value.id == s.id)
    ensures Effective(cfg, s, Program(cfg, s.row, view, s.id)) == PollSteps(cfg, s, view)
  {
    hide DecideRow, Effective, ExecSlice, Reviewed;
    forall i | 0 <= i < |DecideRow(cfg, s.row, view)|
      ensures !DecideRow(cfg, s.row, view)[i].Flush?
    {
      NoFlushDecided(cfg, s.row, view, i);
    }
    EffectiveAfter(cfg, s, DecideRow(cfg, s.row, view), view.flush(s.id));
    VisitedByActs(cfg, s, view);
    ReviewHoldsNothing(cfg, s, view);
    EffectiveFlush(cfg, Reviewed(cfg, s, view), view.flush(s.id));
    assert view.flush(s.id) == view.flush(Reviewed(cfg, s, view).id) by { ReviewedId(cfg, s, view); }
  }

  lemma {:induction false} RestingActs(cfg: Config, s: Sys, n: nat)
    requires s.poll.Resting?
    ensures ActsOf(cfg, s, Acting(n)) == []
  {
    hide ActsOf;
    if n > 0 {
      ActsOfAppend(cfg, s, [PollActs], Acting(n - 1));
      ActsOfOne(cfg, s, PollActs);
      RunOne(cfg, s, PollActs);
      RestingActs(cfg, s, n - 1);
    } else {
      NoMovesNoActs(cfg, s);
    }
  }

  lemma NoMovesNoActs(cfg: Config, s: Sys)
    ensures ActsOf(cfg, s, []) == []
  {
  }

  lemma {:induction false} ProgramActs(cfg: Config, s: Sys)
    requires s.poll.Busy?
    ensures ActsOf(cfg, s, Acting(|s.poll.todo| + 1)) == Effective(cfg, s.slice, s.poll.todo)
    decreases |TodoOf(s.poll)|
  {
    hide ActsOf, RunMoves;
    var todo := s.poll.todo;
    var t := Next(cfg, s, PollActs);
    ActsOfAppend(cfg, s, [PollActs], Acting(|todo|));
    ActsOfOne(cfg, s, PollActs);
    RunOne(cfg, s, PollActs);
    if t.poll.Busy? {
      ProgramActs(cfg, t);
    } else {
      RestingActs(cfg, t, |todo|);
    }
  }

  /**
   The steps of every legal poll on this id are those of an undisturbed poll here, so runs of the world
   with whole polls in them are among those that the next statement is about.
  */
  lemma LegalPollActs(cfg: Config, w: World, view: View, order: Order, s: Sys)
    requires LegalPoll(cfg, w, view, order) && AtRest(w) && s.slice == SliceOf(w, s.slice.id)
    requires s.poll.Resting? && Honest(view, s.kind, s.name, s.inKweb)
    ensures Mine(PollTasks(view, order), s.slice.id) == ActsOf(cfg, s, PollMoves(cfg, s, view))
  {
    hide LegalPoll, PollTasks, Mine, ActsOf, RunMoves, Effective, Program, PollSteps;
    var s1 := Next(cfg, s, PollBegins(view));
    var s2 := Next(cfg, s1, PollReads);
    MinePoll(cfg, w, view, order, s.slice.id);
    SliceParts(w, s.slice.id);
    ProgramIsPoll(cfg, s.slice, view);
    ActsOfOne(cfg, s, PollBegins(view));
    ActsOfOne(cfg, s1, PollReads);
    RunOne(cfg, s, PollBegins(view));
    RunOne(cfg, s1, PollReads);
    ActsOfAppend(cfg, s, [PollBegins(view)], [PollReads]);
    RunMovesAppend(cfg, s, [PollBegins(view)], [PollReads]);
    var todo := Program(cfg, s.slice.row, view, s.slice.id);
    assert [PollBegins(view)] + [PollReads] == [PollBegins(view), PollReads];
    ActsOfAppend(cfg, s, [PollBegins(view), PollReads], Acting(|todo| + 1));
    ProgramActs(cfg, s2);
  }

  /**
   The same in the whole shared state: whatever steps other ids take in between, a run of the world whose
   steps on this id are those of a successful request and of polls, at most one of them overlapping it,
   leaves the id absent, said DELETED once about it and counted it down once.
  */
  lemma DeletedOnceInWorld(cfg: Config, w: World, tasks: seq<Task>, s: Sys, moves: seq<Move>)
    requires Initial(s) && s.slice == SliceOf(w, s.slice.id) && Mine(tasks, s.slice.id) == ActsOf(cfg, s, moves)
    ensures var t, w', id := RunMoves(cfg, s, moves), Exec(cfg, w, tasks), s.slice.id;
            t.handler.Finished? && t.overlaps <= 1 ==>
              && id !in w'.store.rows
              && DeletedNotes(Notes(w'.log, id)) == DeletedNotes(Notes(w.log, id)) + 1
              && Decrements(Notes(w'.log, id)) == Decrements(Notes(w.log, id)) + 1
  {
    hide RunMoves, ActsOf, Exec, Mine, DeletedNotes, Decrements, Initial;
    MovesAct(cfg, s, moves);
    Locality(cfg, w, tasks, s.slice.id);
    DeletedExactlyOnce(cfg, s, moves);
  }
}
