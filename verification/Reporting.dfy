/** What subscribers are told: agreement with the store, debouncing, removal and timeouts, over all runs. */
module Reporting {
  import opened Resource
  import opened StatusMap
  import opened Machine
  import opened Poll
  import opened Rounds

  // ---------- Subscribers agree with the store ----------

  /** The last status anyone outside was given for an id. */
  function Told(notes: seq<Note>): Option<string> {
    if notes == [] then None
    else
      match notes[|notes| - 1]
      case Stored(status) => Some(status)
      case Published(event) => Some(event.status)
      case Announced(_, status) => Some(status)
      case _ => Told(notes[..|notes| - 1])
  }

  /** A stored status is either what subscribers were last told or exactly what is waiting to be told. */
  ghost predicate Agrees(s: Slice) {
    if s.row.Some? then
      if s.pending.Some? then s.pending.value.status == s.row.value.status && s.pending.value.kind == s.row.value.kind
      else Told(s.notes) == Some(s.row.value.status)
    else s.pending.None?
  }

  ghost predicate Agreement(w: World) {
    AtRest(w) && forall id :: Agrees(SliceOf(w, id))
  }

  lemma ToldSnoc(notes: seq<Note>, note: Note)
    ensures Told(notes + [note]) == match note
                                    case Stored(status) => Some(status)
                                    case Published(event) => Some(event.status)
                                    case Announced(_, status) => Some(status)
                                    case _ => Told(notes)
  {
  }

  /** The round is not a delete of an id that still has a pending event. */
  predicate CutsNothing(w: World, round: Round) {
    round.DeleteRound? ==> round.id !in w.pending
  }

  lemma PolledAgrees(cfg: Config, s: Slice, view: View)
    requires Agrees(s)
    ensures Agrees(Polled(cfg, s, view))
  {
    hide Decide;
  }

  lemma RoundAgrees(cfg: Config, s: Slice, round: Round)
    requires Agrees(s) && (round.CreateRound? && round.entry.id == s.id ==> s.row.None?)
    ensures Agrees(SliceRound(cfg, s, round)) <==> !(round.DeleteRound? && round.id == s.id && s.pending.Some?)
  {
    match round {
      case CreateRound(e) =>
        ToldSnoc(s.notes, Stored(e.status));
        ToldSnoc(s.notes + [Stored(e.status)], Counted(e.kind, 1));
        assert s.notes + [Stored(e.status)] + [Counted(e.kind, 1)] == s.notes + [Stored(e.status), Counted(e.kind, 1)];
      case DeleteRound(_, _) =>
      case PollRound(view, _, _, _) => PolledAgrees(cfg, s, view);
    }
  }

  /** A creation, a poll, or a delete of an id with nothing pending keeps the agreement; any other delete breaks it. */
  lemma RoundKeepsAgreement(cfg: Config, w: World, round: Round)
    requires Agreement(w) && LegalRound(cfg, w, round)
    ensures Agreement(Exec(cfg, w, RoundTasks(round))) <==> CutsNothing(w, round)
  {
    hide Agrees, SliceRound, Exec, RoundTasks;
    var w' := Exec(cfg, w, RoundTasks(round));
    forall id
      ensures AtRest(w')
      ensures Agrees(SliceOf(w', id)) <==> !(round.DeleteRound? && round.id == id && id in w.pending)
    {
      RoundAtId(cfg, w, round, id);
      SliceParts(w, id);
      RoundAgrees(cfg, SliceOf(w, id), round);
    }
    assert AtRest(w') by { RoundAtId(cfg, w, round, ""); }
  }

  /**
   Subscriber agreement, over every run of creations, deletions and polls: for every stored id, either the
   pending event carries exactly the stored status or the last thing told about the id is it, and nothing
   is pending for an absent id. It holds after every round exactly when no delete hits an id with an event
   pending; runs of the monitor and of creations always keep it.
  */
  lemma {:induction false} SubscriberAgreement(cfg: Config, worlds: seq<World>, rounds: seq<Round>, k: nat)
    requires IsRun(cfg, worlds, rounds) && Agreement(worlds[0]) && k <= |rounds|
    ensures (forall i :: 0 <= i <= k ==> Agreement(worlds[i]))
            <==> (forall i :: 0 <= i < k ==> CutsNothing(worlds[i], rounds[i]))
  {
    hide LegalRound, Agreement, Exec, CutsNothing;
    if k > 0 {
      SubscriberAgreement(cfg, worlds, rounds, k - 1);
      if Agreement(worlds[k - 1]) {
        assert Advances(cfg, worlds[k - 1], rounds[k - 1], worlds[k - 1 + 1]);
        RoundKeepsAgreement(cfg, worlds[k - 1], rounds[k - 1]);
      }
    }
  }

  /** Rows left by an earlier process, with the debounce maps empty and subscribers up to date, agree. */
  lemma FreshStartAgrees(w: World)
    requires AtRest(w) && w.pending == map[] && w.last == map[]
    requires forall id :: id in w.store.rows ==> Told(Notes(w.log, id)) == Some(w.store.rows[id].status)
    ensures Agreement(w)
  {
  }

  lemma QuietSlice(cfg: Config, s: Slice, view: View)
    requires Agrees(s)
    requires s.last.Some? ==> view.flush(s.id).check - s.last.value >= cfg.window
    requires s.pending.Some? ==> s.last.Some?
    ensures var t := Polled(cfg, s, view);
            t.pending.None? && (t.row.Some? ==> Told(t.notes) == Some(t.row.value.status))
  {
  }

  /** A poll that ends once every earlier window has elapsed leaves nothing pending and subscribers up to date. */
  lemma QuietPollSettles(cfg: Config, w: World, view: View, order: Order)
    requires Agreement(w) && LegalPoll(cfg, w, view, order)
    requires forall id :: id in w.pending ==> id in w.last
    requires forall id :: id in w.last ==> view.flush(id).check - w.last[id] >= cfg.window
    ensures var w' := Exec(cfg, w, PollTasks(view, order));
            && w'.pending == map[]
            && forall id :: id in w'.store.rows ==> Told(Notes(w'.log, id)) == Some(w'.store.rows[id].status)
  {
    hide Polled, LegalPoll, PollTasks, Agrees, Told;
    var w' := Exec(cfg, w, PollTasks(view, order));
    forall id
      ensures id !in w'.pending
      ensures id in w'.store.rows ==> Told(Notes(w'.log, id)) == Some(w'.store.rows[id].status)
    {
      PollAtId(cfg, w, view, order, id);
      QuietSlice(cfg, SliceOf(w, id), view);
      SliceParts(w', id);
    }
  }

  // ---------- Debouncing ----------

  /** The monitor removed the id and dropped both its debounce entries. */
  predicate Removal(note: Note) {
    note.Forgotten?
  }

  /** When the last event since the last removal was published. */
  function LastShown(notes: seq<Note>): Option<int> {
    if notes == [] then None
    else
      var note := notes[|notes| - 1];
      if note.Published? then Some(note.event.at)
      else if Removal(note) then None
      else LastShown(notes[..|notes| - 1])
  }

  /** Each event follows the previous one since the last removal by at least the window. */
  ghost predicate Spaced(window: int, notes: seq<Note>) {
    notes == [] ||
    (var init, note := notes[..|notes| - 1], notes[|notes| - 1];
     && Spaced(window, init)
     && (note.Published? && LastShown(init).Some? ==> note.event.at - LastShown(init).value >= window))
  }

  /** The debounce map holds the time of the last event since the last removal, and events are spaced. */
  ghost predicate Tracked(window: int, s: Slice) {
    s.last == LastShown(s.notes) && Spaced(window, s.notes)
  }

  /** What debouncing keeps for one id, at an instant `now` past every reading so far. */
  ghost predicate Debounced(cfg: Config, s: Slice, now: int) {
    && (s.pending.Some? ==> s.last.Some? && s.last.value <= s.pending.value.scheduledAt <= now
                            && s.pending.value.scheduledAt - s.last.value < cfg.window)
    && (s.last.Some? ==> s.last.value <= now)
    && Tracked(cfg.window, s)
  }

  lemma ShownSnoc(window: int, notes: seq<Note>, note: Note)
    ensures LastShown(notes + [note])
            == if note.Published? then Some(note.event.at) else if Removal(note) then None else LastShown(notes)
    ensures Spaced(window, notes + [note])
            <==> Spaced(window, notes)
                 && (note.Published? && LastShown(notes).Some? ==> note.event.at - LastShown(notes).value >= window)
  {
  }

  lemma RemoveDebounced(cfg: Config, s: Slice, kind: string, told: seq<Note>, tick: Tick, now: int)
    requires Debounced(cfg, s, now) && now <= tick.check <= tick.stamp
    requires told == [] || (told == [Published(Event(kind, DELETED, tick.stamp))] && Open(cfg, s.last, tick.check))
    ensures var notes := s.notes + told + [Counted(kind, -1)] + [Forgotten];
            LastShown(notes).None? && Spaced(cfg.window, notes)
  {
    if told == [] {
      assert s.notes + told == s.notes;
    } else {
      ShownSnoc(cfg.window, s.notes, told[0]);
    }
    ShownSnoc(cfg.window, s.notes + told, Counted(kind, -1));
    ShownSnoc(cfg.window, s.notes + told + [Counted(kind, -1)], Forgotten);
  }

  lemma ReviewDebounced(cfg: Config, s: Slice, view: View, start: int, finish: int)
    requires Debounced(cfg, s, start) && Ordered(view, start, finish)
    ensures Debounced(cfg, Reviewed(cfg, s, view), view.tick(s.id).stamp)
  {
    hide LastShown, Spaced, Decide;
    var tick := view.tick(s.id);
    assert start <= tick.schedule <= tick.check <= tick.stamp;
    if s.row.Some? {
      var e := s.row.value;
      match Decide(cfg, e, view) {
        case Keep =>
        case Remove =>
          var told := if Open(cfg, s.last, tick.check) then [Published(Event(e.kind, DELETED, tick.stamp))] else [];
          RemoveDebounced(cfg, s, e.kind, told, tick, start);
        case Become(status) =>
          ShownSnoc(cfg.window, s.notes, Published(Event(e.kind, status, tick.stamp)));
      }
    }
  }

  lemma FlushDebounced(cfg: Config, s: Slice, tick: Tick, now: int, finish: int)
    requires Debounced(cfg, s, now) && now <= tick.check <= tick.stamp <= finish
    ensures Debounced(cfg, Flushed(cfg, s, tick), finish)
  {
  }

  lemma RoundDebounced(cfg: Config, s: Slice, round: Round, now: int)
    requires Debounced(cfg, s, now)
    requires round.PollRound? ==> now <= round.start <= round.finish && Ordered(round.view, round.start, round.finish)
    ensures Debounced(cfg, SliceRound(cfg, s, round), if round.PollRound? then round.finish else now)
  {
    match round {
      case DeleteRound(kind, _) =>
        ShownSnoc(cfg.window, s.notes, Announced(kind, DELETED));
        ShownSnoc(cfg.window, s.notes + [Announced(kind, DELETED)], Counted(kind, -1));
        assert s.notes + [Announced(kind, DELETED)] + [Counted(kind, -1)]
               == s.notes + [Announced(kind, DELETED), Counted(kind, -1)];
      case CreateRound(e) =>
        ShownSnoc(cfg.window, s.notes, Stored(e.status));
        ShownSnoc(cfg.window, s.notes + [Stored(e.status)], Counted(e.kind, 1));
        assert s.notes + [Stored(e.status)] + [Counted(e.kind, 1)] == s.notes + [Stored(e.status), Counted(e.kind, 1)];
      case PollRound(view, _, start, finish) =>
        ReviewDebounced(cfg, s, view, start, finish);
        FlushDebounced(cfg, Reviewed(cfg, s, view), view.flush(s.id), view.tick(s.id).stamp, finish);
    }
  }

  /** The end of the last poll among the first k rounds, or `from` when there was none. */
  function EndOf(rounds: seq<Round>, k: nat, from: int): int
    requires k <= |rounds|
  {
    if k == 0 then from else if rounds[k - 1].PollRound? then rounds[k - 1].finish else EndOf(rounds, k - 1, from)
  }

  /** No poll of the run starts before `from`. */
  ghost predicate StartsFrom(rounds: seq<Round>, from: int) {
    forall i :: 0 <= i < |rounds| && rounds[i].PollRound? ==> from <= rounds[i].start
  }

  lemma {:induction false} EndBeforeNext(rounds: seq<Round>, k: nat, i: nat, from: int)
    requires Timed(rounds) && StartsFrom(rounds, from) && k <= i < |rounds| && rounds[i].PollRound?
    ensures EndOf(rounds, k, from) <= rounds[i].start
  {
    if k > 0 && !rounds[k - 1].PollRound? {
      EndBeforeNext(rounds, k - 1, i, from);
    }
  }

  /** Debouncing holds at every id throughout every run whose clock never runs backwards. */
  lemma {:induction false} DebounceThroughout(cfg: Config, worlds: seq<World>, rounds: seq<Round>, k: nat, id: string,
                                              from: int)
    requires IsRun(cfg, worlds, rounds) && AtRest(worlds[0]) && k <= |rounds|
    requires Timed(rounds) && StartsFrom(rounds, from)
    requires Debounced(cfg, SliceOf(worlds[0], id), from)
    ensures Debounced(cfg, SliceOf(worlds[k], id), EndOf(rounds, k, from))
  {
    hide IsRun, SliceRound, Debounced, SliceOf, AtRest;
    if k > 0 {
      DebounceThroughout(cfg, worlds, rounds, k - 1, id, from);
      RunSize(cfg, worlds, rounds);
      RunAtId(cfg, worlds, rounds, k - 1, id);
      if rounds[k - 1].PollRound? {
        EndBeforeNext(rounds, k - 1, k - 1, from);
      }
      RoundDebounced(cfg, SliceOf(worlds[k - 1], id), rounds[k - 1], EndOf(rounds, k - 1, from));
    }
  }

  lemma RunSize(cfg: Config, worlds: seq<World>, rounds: seq<Round>)
    requires IsRun(cfg, worlds, rounds)
    ensures |worlds| == |rounds| + 1
  {
  }

  /** Between two events with no removal in between, the later knows of the earlier. */
  lemma {:induction false} ShownSince(window: int, notes: seq<Note>, i: int)
    requires 0 <= window && Spaced(window, notes)
    requires 0 <= i < |notes| && notes[i].Published? && forall k :: i < k < |notes| ==> !Removal(notes[k])
    ensures LastShown(notes).Some? && notes[i].event.at <= LastShown(notes).value
  {
    var init := notes[..|notes| - 1];
    if i < |notes| - 1 {
      assert init[i] == notes[i];
      ShownSince(window, init, i);
    }
  }

  lemma {:induction false} SpacedPrefix(window: int, notes: seq<Note>, n: nat)
    requires Spaced(window, notes) && n <= |notes|
    ensures Spaced(window, notes[..n])
  {
    if n < |notes| {
      SpacedPrefix(window, notes[..|notes| - 1], n);
      assert notes[..|notes| - 1][..n] == notes[..n];
    } else {
      assert notes[..n] == notes;
    }
  }

  /**
   Over every run: pending ids are among the recently published ones, each pending event was
   scheduled inside its id's open window, and two events of one id with no removal by the monitor between them are
   at least the debounce window apart.
  */
  lemma DebounceInvariant(cfg: Config, worlds: seq<World>, rounds: seq<Round>, k: nat, from: int)
    requires 0 <= cfg.window && IsRun(cfg, worlds, rounds) && AtRest(worlds[0]) && k <= |rounds|
    requires Timed(rounds) && StartsFrom(rounds, from)
    requires forall id :: Debounced(cfg, SliceOf(worlds[0], id), from)
    ensures var w := worlds[k];
            && w.pending.Keys <= w.last.Keys
            && (forall id :: id in w.pending ==> w.last[id] <= w.pending[id].scheduledAt < w.last[id] + cfg.window)
            && (forall id, i, j :: WellSpaced(cfg.window, Notes(w.log, id), i, j))
  {
    hide Debounced, LegalRound, Exec;
    var w := worlds[k];
    forall id
      ensures Debounced(cfg, SliceOf(w, id), EndOf(rounds, k, from))
    {
      DebounceThroughout(cfg, worlds, rounds, k, id, from);
    }
    forall id
      ensures id in w.pending ==> id in w.last && w.last[id] <= w.pending[id].scheduledAt < w.last[id] + cfg.window
    {
      DebouncedSays(cfg, w, id, EndOf(rounds, k, from));
    }
    forall id, i, j
      ensures WellSpaced(cfg.window, Notes(w.log, id), i, j)
    {
      DebouncedSays(cfg, w, id, EndOf(rounds, k, from));
      SpacedApart(cfg.window, Notes(w.log, id), i, j);
    }
  }

  /** Events number i and j of one id are a window apart unless a removal lies between them. */
  ghost predicate WellSpaced(window: int, notes: seq<Note>, i: int, j: int) {
    0 <= i < j < |notes| && notes[i].Published? && notes[j].Published?
    && (forall k :: i < k < j ==> !Removal(notes[k]))
    ==> notes[j].event.at - notes[i].event.at >= window
  }

  lemma SpacedApart(window: int, notes: seq<Note>, i: int, j: int)
    requires 0 <= window && Spaced(window, notes)
    ensures WellSpaced(window, notes, i, j)
  {
    if 0 <= i < j < |notes| && notes[i].Published? && notes[j].Published?
       && (forall k :: i < k < j ==> !Removal(notes[k])) {
      SpacedPrefix(window, notes, j + 1);
      assert notes[..j + 1][..j] == notes[..j];
      ShownSince(window, notes[..j], i);
    }
  }

  lemma DebouncedSays(cfg: Config, w: World, id: string, now: int)
    requires Debounced(cfg, SliceOf(w, id), now)
    ensures id in w.pending ==> id in w.last && w.last[id] <= w.pending[id].scheduledAt < w.last[id] + cfg.window
    ensures Spaced(cfg.window, Notes(w.log, id))
  {
  }

  /** A process that starts with empty debounce maps and has published nothing is debounced. */
  lemma {:induction false} SilentStart(window: int, notes: seq<Note>)
    requires forall i :: 0 <= i < |notes| ==> !notes[i].Published?
    ensures LastShown(notes).None? && Spaced(window, notes)
  {
    if notes != [] {
      SilentStart(window, notes[..|notes| - 1]);
    }
  }

  function EventCount(notes: seq<Note>): nat {
    if notes == [] then 0 else EventCount(notes[..|notes| - 1]) + if notes[|notes| - 1].Published? then 1 else 0
  }

  lemma EventCountSnoc(notes: seq<Note>, note: Note)
    ensures EventCount(notes + [note]) == EventCount(notes) + if note.Published? then 1 else 0
  {
  }

  lemma AtMostOneSliceEvent(cfg: Config, s: Slice, view: View)
    ensures EventCount(s.notes) <= EventCount(Polled(cfg, s, view).notes) <= EventCount(s.notes) + 1
  {
    var mid := Reviewed(cfg, s, view);
    if mid.pending.Some? {
      var pe := mid.pending.value;
      EventCountSnoc(mid.notes, Published(Event(pe.kind, pe.status, view.flush(s.id).stamp)));
    }
    if s.row.Some? {
      var e, tick := s.row.value, view.tick(s.id);
      match Decide(cfg, e, view) {
        case Keep =>
        case Remove =>
          var shown := Published(Event(e.kind, DELETED, tick.stamp));
          var told := if Open(cfg, s.last, tick.check) then [shown] else [];
          EventCountSnoc(s.notes, shown);
          assert s.notes + [] == s.notes;
          EventCountSnoc(s.notes + told, Counted(e.kind, -1));
          EventCountSnoc(s.notes + told + [Counted(e.kind, -1)], Forgotten);
        case Become(status) =>
          EventCountSnoc(s.notes, Published(Event(e.kind, status, tick.stamp)));
      }
    }
  }

  /** A poll, however scheduled, publishes at most one event per id. */
  lemma AtMostOneEvent(cfg: Config, w: World, view: View, order: Order, id: string)
    requires AtRest(w) && LegalPoll(cfg, w, view, order)
    ensures var notes, notes' := Notes(w.log, id), Notes(Exec(cfg, w, PollTasks(view, order)).log, id);
            EventCount(notes) <= EventCount(notes') <= EventCount(notes) + 1
  {
    hide Polled, LegalPoll, PollTasks, EventCount;
    PollAtId(cfg, w, view, order, id);
    AtMostOneSliceEvent(cfg, SliceOf(w, id), view);
  }

  // ---------- What a poll says ----------

  /** From `s` to `t` subscribers were told `event`, which leaves nothing pending. */
  predicate Says(s: Slice, t: Slice, event: Event) {
    t.notes == s.notes + [Published(event)] && t.pending.None? && t.last == Some(event.at)
  }

  predicate SaysNothing(s: Slice, t: Slice) {
    t.notes == s.notes && t.last == s.last
  }

  /**
   All that a poll says and leaves pending about an id: the removal, the new status or the event that was
   pending, at once or at the closing flush when its window has elapsed, and else nothing yet.
  */
  predicate Reports(window: int, s: Slice, t: Slice, tick: Tick, flush: Tick) {
    var open := s.last.None? || tick.check - s.last.value >= window;
    var due := s.last.None? || flush.check - s.last.value >= window;
    if s.row.Some? && t.row.None? then
      var e := s.row.value;
      && t.pending.None? && t.last.None?
      && t.notes == s.notes + (if open then [Published(Event(e.kind, "DELETED", tick.stamp))] else [])
                    + [Counted(e.kind, -1)] + [Forgotten]
    else if s.row.Some? && t.row.value.status != s.row.value.status then
      var e := s.row.value;
      if open then Says(s, t, Event(e.kind, t.row.value.status, tick.stamp))
      else if due then Says(s, t, Event(e.kind, t.row.value.status, flush.stamp))
      else SaysNothing(s, t) && t.pending == Some(Pending(e.kind, t.row.value.status, tick.schedule))
    else
      if s.pending.Some? && due then Says(s, t, Event(s.pending.value.kind, s.pending.value.status, flush.stamp))
      else SaysNothing(s, t) && t.pending == s.pending
  }

  /** A change of status is a change. */
  lemma VerdictShows(cfg: Config, e: Entry, view: View)
    ensures Decide(cfg, e, view).Become? ==> Decide(cfg, e, view).status != e.status
  {
    hide MapVmStatus, MapClusterStatus;
    assert ERROR[0] == 'E' && CREATING[0] == 'C';
  }

  lemma SliceReports(cfg: Config, s: Slice, view: View)
    ensures Reports(cfg.window, s, Polled(cfg, s, view), view.tick(s.id), view.flush(s.id))
  {
    if s.row.Some? {
      VerdictShows(cfg, s.row.value, view);
    }
    hide Decide;
  }

  /** Whatever its schedule, a poll reports so on every id. */
  lemma PollReports(cfg: Config, w: World, view: View, order: Order, id: string)
    requires AtRest(w) && LegalPoll(cfg, w, view, order)
    ensures Reports(cfg.window, SliceOf(w, id), SliceOf(Exec(cfg, w, PollTasks(view, order)), id), view.tick(id),
                    view.flush(id))
  {
    hide LegalPoll, PollTasks, Exec, Notes, Reports, Polled;
    PollAtId(cfg, w, view, order, id);
    SliceReports(cfg, SliceOf(w, id), view);
  }

  // ---------- Removal ----------

  /** Some event of this id, with no removal after it, is less than a window old at `now`. */
  ghost predicate RecentlyTold(window: int, notes: seq<Note>, now: int) {
    exists i :: && 0 <= i < |notes| && notes[i].Published? && now - notes[i].event.at < window
                && forall k :: i < k < |notes| ==> !Removal(notes[k])
  }

  lemma {:induction false} ShownWitness(notes: seq<Note>) returns (i: int)
    requires LastShown(notes).Some?
    ensures 0 <= i < |notes| && notes[i].Published? && notes[i].event.at == LastShown(notes).value
    ensures forall k :: i < k < |notes| ==> !Removal(notes[k])
  {
    if notes[|notes| - 1].Published? {
      i := |notes| - 1;
    } else {
      i := ShownWitness(notes[..|notes| - 1]);
    }
  }

  lemma OpenMeansNotRecent(window: int, notes: seq<Note>, now: int)
    requires 0 <= window && Spaced(window, notes)
    ensures RecentlyTold(window, notes, now) <==> LastShown(notes).Some? && now - LastShown(notes).value < window
  {
    if RecentlyTold(window, notes, now) {
      var i :| && 0 <= i < |notes| && notes[i].Published? && now - notes[i].event.at < window
               && forall k :: i < k < |notes| ==> !Removal(notes[k]);
      ShownSince(window, notes, i);
    }
    if LastShown(notes).Some? {
      var i := ShownWitness(notes);
    }
  }

  /**
   Removing a row publishes DELETED exactly when no event of the id lies within the window, decrements
   the gauge once, and leaves no debounce entry behind.
  */
  lemma RemovalSays(cfg: Config, s: Slice, view: View)
    requires 0 <= cfg.window && Tracked(cfg.window, s)
    requires s.row.Some? && Polled(cfg, s, view).row.None?
    ensures var e, tick, t := s.row.value, view.tick(s.id), Polled(cfg, s, view);
            && t.pending.None? && t.last.None?
            && t.notes == s.notes
                          + (if RecentlyTold(cfg.window, s.notes, tick.check) then []
                             else [Published(Event(e.kind, DELETED, tick.stamp))])
                          + [Counted(e.kind, -1)] + [Forgotten]
  {
    OpenMeansNotRecent(cfg.window, s.notes, view.tick(s.id).check);
  }

  /** Until it is created again, an id that is absent and has nothing pending is left alone by every round. */
  lemma RemovalFinal(cfg: Config, s: Slice, round: Round)
    requires s.row.None? && s.pending.None?
    requires round.CreateRound? ==> round.entry.id != s.id
    requires round.DeleteRound? ==> round.id != s.id
    ensures SliceRound(cfg, s, round) == s
  {
  }

  /** Rounds number j to k - 1 do not create the id. */
  ghost predicate NotCreated(rounds: seq<Round>, j: nat, k: nat, id: string)
    requires k <= |rounds|
  {
    forall i :: j <= i < k && rounds[i].CreateRound? ==> rounds[i].entry.id != id
  }

  /** A delete request needs a row. */
  lemma NoDeleteOfAbsent(cfg: Config, w: World, round: Round, id: string)
    requires LegalRound(cfg, w, round) && SliceOf(w, id).row.None?
    ensures round.DeleteRound? ==> round.id != id
  {
  }

  /** A round for an absent id that it does not create. */
  lemma AbsentRound(cfg: Config, worlds: seq<World>, rounds: seq<Round>, j: nat, k: nat, id: string)
    requires IsRun(cfg, worlds, rounds) && AtRest(worlds[0]) && j <= k < |rounds|
    requires NotCreated(rounds, j, k + 1, id) && SliceOf(worlds[k], id).row.None?
    ensures SliceOf(worlds[k + 1], id) == SliceRound(cfg, SliceOf(worlds[k], id), rounds[k])
    ensures rounds[k].CreateRound? ==> rounds[k].entry.id != id
    ensures rounds[k].DeleteRound? ==> rounds[k].id != id
  {
    hide LegalRound, AtRest, Exec, SliceRound, SliceOf;
    RunAtId(cfg, worlds, rounds, k, id);
    assert Advances(cfg, worlds[k], rounds[k], worlds[k + 1]);
    NoDeleteOfAbsent(cfg, worlds[k], rounds[k], id);
  }

  lemma NotCreatedPrefix(rounds: seq<Round>, j: nat, k: nat, n: nat, id: string)
    requires k <= n <= |rounds| && NotCreated(rounds, j, n, id)
    ensures NotCreated(rounds, j, k, id)
  {
  }

  lemma {:induction false} StaysRemoved(cfg: Config, worlds: seq<World>, rounds: seq<Round>, j: nat, k: nat, id: string)
    requires IsRun(cfg, worlds, rounds) && AtRest(worlds[0]) && j <= k <= |rounds|
    requires SliceOf(worlds[j], id).row.None? && SliceOf(worlds[j], id).pending.None?
    requires NotCreated(rounds, j, k, id)
    ensures SliceOf(worlds[k], id) == SliceOf(worlds[j], id)
  {
    hide IsRun, AtRest, SliceRound, SliceOf, NotCreated;
    RunSize(cfg, worlds, rounds);
    if k > j {
      NotCreatedPrefix(rounds, j, k - 1, k, id);
      StaysRemoved(cfg, worlds, rounds, j, k - 1, id);
      AbsentRound(cfg, worlds, rounds, j, k - 1, id);
      SliceId(worlds[k - 1], id);
      RemovalFinal(cfg, SliceOf(worlds[k - 1], id), rounds[k - 1]);
    }
  }

  /**
   If poll number j of a run removes an id, then from there on, until it is created again, the id is absent
   from the rows and the debounce maps, and all that is ever said about it is what that poll said.
  */
  lemma RemovedForGood(cfg: Config, worlds: seq<World>, rounds: seq<Round>, j: nat, k: nat, id: string, from: int)
    requires 0 <= cfg.window && IsRun(cfg, worlds, rounds) && AtRest(worlds[0]) && j < k <= |rounds|
    requires Timed(rounds) && StartsFrom(rounds, from) && Debounced(cfg, SliceOf(worlds[0], id), from)
    requires rounds[j].PollRound? && id in worlds[j].store.rows && NotCreated(rounds, j, k, id)
    ensures var w, w', e, tick := worlds[j], worlds[k], worlds[j].store.rows[id], rounds[j].view.tick(id);
            id !in worlds[j + 1].store.rows ==>
              && id !in w'.store.rows && id !in w'.pending && id !in w'.last
              && Notes(w'.log, id) == Notes(w.log, id)
                                      + (if RecentlyTold(cfg.window, Notes(w.log, id), tick.check) then []
                                         else [Published(Event(e.kind, DELETED, tick.stamp))])
                                      + [Counted(e.kind, -1)] + [Forgotten]
  {
    hide Polled, LegalRound, AtRest, Exec, Tracked, RecentlyTold;
    RunAtId(cfg, worlds, rounds, j, id);
    DebounceThroughout(cfg, worlds, rounds, j, id, from);
    if id !in worlds[j + 1].store.rows {
      RemovalSays(cfg, SliceOf(worlds[j], id), rounds[j].view);
      StaysRemoved(cfg, worlds, rounds, j + 1, k, id);
      assert SliceOf(worlds[k], id) == SliceOf(worlds[j + 1], id);
    }
  }

  // ---------- After a delete request ----------

  /** At the closing flush of this round the window that `s` opened has elapsed. */
  predicate Due(cfg: Config, s: Slice, round: Round) {
    round.PollRound? && Open(cfg, s.last, round.view.flush(s.id).check)
  }

  /** The first round from number j on, before number k, that is due. */
  function FirstDue(cfg: Config, s: Slice, rounds: seq<Round>, j: nat, k: nat): (first: Option<nat>)
    requires j <= k <= |rounds|
    ensures first.None? <==> forall i :: j <= i < k ==> !Due(cfg, s, rounds[i])
    ensures first.Some? ==> j <= first.value < k && Due(cfg, s, rounds[first.value])
                            && forall i :: j <= i < first.value ==> !Due(cfg, s, rounds[i])
    decreases k
  {
    if j == k then None
    else
      var earlier := FirstDue(cfg, s, rounds, j, k - 1);
      if earlier.Some? then earlier else if Due(cfg, s, rounds[k - 1]) then Some(k - 1) else None
  }

  /** The absent id's slice once the event it had pending, if any, has met its first due flush. */
  function Outlived(cfg: Config, s: Slice, rounds: seq<Round>, j: nat, k: nat): Slice
    requires j <= k <= |rounds|
  {
    var first := FirstDue(cfg, s, rounds, j, k);
    if first.None? || s.pending.None? then s else Flushed(cfg, s, rounds[first.value].view.flush(s.id))
  }

  lemma OutlivedGrows(cfg: Config, s: Slice, rounds: seq<Round>, j: nat, k: nat)
    requires j < k <= |rounds| && s.row.None?
    requires var round := rounds[k - 1];
             (round.CreateRound? ==> round.entry.id != s.id) && (round.DeleteRound? ==> round.id != s.id)
    ensures SliceRound(cfg, Outlived(cfg, s, rounds, j, k - 1), rounds[k - 1]) == Outlived(cfg, s, rounds, j, k)
  {
    hide Decide;
  }

  lemma OutlivedAbsent(cfg: Config, s: Slice, rounds: seq<Round>, j: nat, k: nat)
    requires j <= k <= |rounds|
    ensures Outlived(cfg, s, rounds, j, k).row == s.row
  {
  }

  lemma OutlivedNothing(cfg: Config, s: Slice, rounds: seq<Round>, k: nat)
    requires k <= |rounds|
    ensures Outlived(cfg, s, rounds, k, k) == s
  {
  }

  lemma {:induction false} AfterDelete(cfg: Config, worlds: seq<World>, rounds: seq<Round>, j: nat, k: nat, id: string)
    requires IsRun(cfg, worlds, rounds) && AtRest(worlds[0]) && j <= k <= |rounds|
    requires SliceOf(worlds[j], id).row.None? && NotCreated(rounds, j, k, id)
    ensures SliceOf(worlds[k], id) == Outlived(cfg, SliceOf(worlds[j], id), rounds, j, k)
  {
    hide IsRun, AtRest, SliceRound, SliceOf, NotCreated, Outlived;
    RunSize(cfg, worlds, rounds);
    var s := SliceOf(worlds[j], id);
    if k > j {
      NotCreatedPrefix(rounds, j, k - 1, k, id);
      AfterDelete(cfg, worlds, rounds, j, k - 1, id);
      OutlivedAbsent(cfg, s, rounds, j, k - 1);
      AbsentRound(cfg, worlds, rounds, j, k - 1, id);
      SliceId(worlds[j], id);
      OutlivedGrows(cfg, s, rounds, j, k);
    } else {
      OutlivedNothing(cfg, s, rounds, k);
    }
  }

  /**
   A delete request clears neither debounce entry. Over every later run that does not create the id again:
   if nothing was pending, nothing more is ever said about it. If an event was pending, it follows the
   DELETED exactly once, at the first poll at whose closing flush its window has elapsed, and not before.
  */
  lemma StaleEventIff(cfg: Config, worlds: seq<World>, rounds: seq<Round>, j: nat, k: nat, id: string)
    requires IsRun(cfg, worlds, rounds) && AtRest(worlds[0]) && j < k <= |rounds|
    requires rounds[j].DeleteRound? && rounds[j].id == id && NotCreated(rounds, j, k, id)
    ensures var was, now := SliceOf(worlds[j], id), SliceOf(worlds[k], id);
            var first := FirstDue(cfg, was, rounds, j + 1, k);
            && now.row.None?
            && (was.pending.None? || first.None? ==>
                  && now.pending == was.pending
                  && now.notes == was.notes + [Announced(rounds[j].kind, DELETED), Counted(rounds[j].kind, -1)])
            && (was.pending.Some? && first.Some? ==>
                  && now.pending.None?
                  && now.notes == was.notes + [Announced(rounds[j].kind, DELETED), Counted(rounds[j].kind, -1)]
                                  + [Published(Event(was.pending.value.kind, was.pending.value.status,
                                                     rounds[first.value].view.flush(id).stamp))])
  {
    hide LegalRound, AtRest, Exec, Notes, Polled, SliceOf;
    var was, gone := SliceOf(worlds[j], id), SliceOf(worlds[j + 1], id);
    SliceId(worlds[j], id);
    RunAtId(cfg, worlds, rounds, j, id);
    SameDue(cfg, was, gone, rounds, j + 1, k);
    AfterDelete(cfg, worlds, rounds, j + 1, k, id);
  }

  lemma {:induction false} SameDue(cfg: Config, s: Slice, t: Slice, rounds: seq<Round>, j: nat, k: nat)
    requires j <= k <= |rounds| && s.id == t.id && s.last == t.last
    ensures FirstDue(cfg, s, rounds, j, k) == FirstDue(cfg, t, rounds, j, k)
  {
    if j < k {
      SameDue(cfg, s, t, rounds, j, k - 1);
    }
  }

  /**
   Created again before that flush, the id gets its predecessor's event: subscribers then hold the old
   status, which is the stored one only by coincidence.
  */
  lemma StaleOverNew(cfg: Config, s: Slice, kind: string, e: Entry, view: View)
    requires s.pending.Some? && e.id == s.id && Decide(cfg, e, view) == Keep
    requires Open(cfg, s.last, view.flush(s.id).check)
    ensures var gone := SliceRound(cfg, s, DeleteRound(kind, s.id));
            var t := Polled(cfg, SliceRound(cfg, gone, CreateRound(e)), view);
            t.row == Some(e) && t.pending.None? && Told(t.notes) == Some(s.pending.value.status)
  {
    hide Decide;
  }

  // ---------- No cluster sticks in CREATING ----------

  /** In this round kweb does not list the cluster `e` and no request is made for its id. */
  ghost predicate NotListed(e: Entry, round: Round) {
    match round
    case CreateRound(other) => other.id != e.id
    case DeleteRound(_, id) => id != e.id
    case PollRound(view, _, _, _) => view.clusters.Some? ==> e.kcliName !in view.clusters.value
  }

  /** The cluster pass ran. */
  predicate ClustersSeen(round: Round) {
    round.PollRound? && round.view.clusters.Some?
  }

  /** The cluster pass ran and read the clock more than `timeout` after the cluster's creation. */
  predicate SeenLate(round: Round, e: Entry, timeout: int) {
    ClustersSeen(round) && round.view.tick(e.id).observe - e.createdAt > timeout
  }

  predicate Waiting(s: Slice, e: Entry) {
    s.id == e.id && s.row == Some(e) && e.kind == CLUSTER && e.status == CREATING && s.pending.None?
  }

  lemma WaitsInSilence(cfg: Config, s: Slice, e: Entry, round: Round)
    requires Waiting(s, e) && NotListed(e, round) && !SeenLate(round, e, cfg.createTimeout)
    ensures SliceRound(cfg, s, round) == s
  {
  }

  /** At the timeout the row becomes ERROR, and subscribers are told so at once or will be by the pending event. */
  lemma TimesOut(cfg: Config, s: Slice, e: Entry, round: Round)
    requires Waiting(s, e) && NotListed(e, round) && SeenLate(round, e, cfg.createTimeout)
    ensures var t := SliceRound(cfg, s, round);
            t.row == Some(e.(status := ERROR)) && t.id == e.id
            && (t.pending.None? ==> Told(t.notes) == Some(ERROR))
            && (t.pending.Some? ==> t.pending.value.status == ERROR)
  {
    hide Told;
    assert VM != CLUSTER && !Leaving(CREATING);
    ToldSnoc(s.notes, Published(Event(CLUSTER, ERROR, round.view.tick(s.id).stamp)));
    ToldSnoc(s.notes, Published(Event(CLUSTER, ERROR, round.view.flush(s.id).stamp)));
  }

  lemma UnseenKeepsRow(cfg: Config, s: Slice, e: Entry, round: Round)
    requires s.id == e.id && s.row == Some(e) && e.kind == CLUSTER && NotListed(e, round) && !ClustersSeen(round)
    ensures SliceRound(cfg, s, round).row == Some(e)
  {
  }

  lemma ErrorRemoved(cfg: Config, s: Slice, e: Entry, round: Round)
    requires s.id == e.id && s.row == Some(e) && e.kind == CLUSTER && e.status == ERROR
    requires NotListed(e, round) && ClustersSeen(round)
    ensures SliceRound(cfg, s, round).row.None?
  {
  }

  lemma {:induction false} StillWaiting(cfg: Config, worlds: seq<World>, rounds: seq<Round>, e: Entry, k: nat)
    requires IsRun(cfg, worlds, rounds) && AtRest(worlds[0]) && k <= |rounds|
    requires Waiting(SliceOf(worlds[0], e.id), e)
    requires forall i :: 0 <= i < k ==> NotListed(e, rounds[i]) && !SeenLate(rounds[i], e, cfg.createTimeout)
    ensures SliceOf(worlds[k], e.id) == SliceOf(worlds[0], e.id)
  {
    hide LegalRound, AtRest, Exec, SliceRound, NotListed, SeenLate, SliceOf;
    if k > 0 {
      StillWaiting(cfg, worlds, rounds, e, k - 1);
      RunAtId(cfg, worlds, rounds, k - 1, e.id);
      WaitsInSilence(cfg, SliceOf(worlds[k - 1], e.id), e, rounds[k - 1]);
    }
  }

  lemma {:induction false} StillError(cfg: Config, worlds: seq<World>, rounds: seq<Round>, e: Entry, j: nat, k: nat)
    requires IsRun(cfg, worlds, rounds) && AtRest(worlds[0]) && j <= k <= |rounds|
    requires SliceOf(worlds[j], e.id).row == Some(e) && e.kind == CLUSTER
    requires forall i :: j <= i < k ==> NotListed(e, rounds[i]) && !ClustersSeen(rounds[i])
    ensures SliceOf(worlds[k], e.id).row == Some(e)
  {
    hide LegalRound, AtRest, Exec, SliceRound, NotListed, ClustersSeen;
    if k > j {
      StillError(cfg, worlds, rounds, e, j, k - 1);
      RunAtId(cfg, worlds, rounds, k - 1, e.id);
      UnseenKeepsRow(cfg, SliceOf(worlds[k - 1], e.id), e, rounds[k - 1]);
    }
  }

  /**
   A cluster kweb never lists is left alone, without a word, until `giveUp`, the first successful cluster
   listing after its timeout; there it becomes ERROR, and the next successful listing, `cleanUp`, removes it.
  */
  lemma NeverStuckCreating(cfg: Config, worlds: seq<World>, rounds: seq<Round>, e: Entry, giveUp: nat, cleanUp: nat)
    requires IsRun(cfg, worlds, rounds) && AtRest(worlds[0]) && giveUp < cleanUp < |rounds|
    requires e.id in worlds[0].store.rows && worlds[0].store.rows[e.id] == e && e.id !in worlds[0].pending
    requires e.kind == CLUSTER && e.status == CREATING
    requires forall i :: 0 <= i <= cleanUp ==> NotListed(e, rounds[i])
    requires forall i :: 0 <= i < giveUp ==> !SeenLate(rounds[i], e, cfg.createTimeout)
    requires SeenLate(rounds[giveUp], e, cfg.createTimeout)
    requires forall i :: giveUp < i < cleanUp ==> !ClustersSeen(rounds[i])
    requires ClustersSeen(rounds[cleanUp])
    ensures forall k :: 0 <= k <= giveUp ==> SliceOf(worlds[k], e.id) == SliceOf(worlds[0], e.id)
    ensures forall k :: giveUp < k <= cleanUp ==>
              SliceOf(worlds[k], e.id).row == Some(e.(status := ERROR))
    ensures SliceOf(worlds[cleanUp + 1], e.id).row.None?
  {
    hide LegalRound, AtRest, Exec, SliceRound, ClustersSeen, SeenLate, NotListed;
    var dead := e.(status := ERROR);
    forall k | 0 <= k <= giveUp
      ensures SliceOf(worlds[k], e.id) == SliceOf(worlds[0], e.id)
    {
      StillWaiting(cfg, worlds, rounds, e, k);
    }
    RunAtId(cfg, worlds, rounds, giveUp, e.id);
    TimesOut(cfg, SliceOf(worlds[giveUp], e.id), e, rounds[giveUp]);
    forall i | 0 <= i <= cleanUp
      ensures NotListed(dead, rounds[i])
    {
      SameNameNotListed(e, dead, rounds[i]);
    }
    forall k | giveUp < k <= cleanUp
      ensures SliceOf(worlds[k], e.id).row == Some(dead)
    {
      StillError(cfg, worlds, rounds, dead, giveUp + 1, k);
    }
    RunAtId(cfg, worlds, rounds, cleanUp, e.id);
    ErrorRemoved(cfg, SliceOf(worlds[cleanUp], e.id), dead, rounds[cleanUp]);
  }

  lemma SameNameNotListed(a: Entry, b: Entry, round: Round)
    requires NotListed(a, round) && a.id == b.id && a.kcliName == b.kcliName
    ensures NotListed(b, round)
  {
  }
}
