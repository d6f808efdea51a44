/** Create requests for one id racing any number of polls, at the grain of single atomic steps. */
module Creation {
  import opened Resource
  import opened StatusMap
  import opened Machine
  import opened Poll
  import opened Protocol
  import opened Reporting
  import Rounds

  /**
   Where one create request stands: not begun, past the id check, accepted by kweb, stored, rolling back
   after a failed store, and over.
  */
  datatype CreatePc = Ready | Admitted | Made | Written | Undoing | Over

  datatype Maker = Maker(kcliName: string, kind: string, createdAt: int, pc: CreatePc)

  /** One id: its slice, the requests to create it, kweb's VM names, and where the poll stands. */
  datatype Site = Site(slice: Slice, makers: seq<Maker>, vms: set<string>, poll: PollPc)

  /**
   One atomic step: of request i, of kweb (VMs vanish or appear for reasons of their own), or of the poll.
   `ok` is the answer of kweb or the store, `view` what a poll's listings of kweb return.
  */
  datatype Happening =
    | Check(i: nat)
    | Make(i: nat, ok: bool)
    | Store(i: nat, ok: bool)
    | Undo(i: nat, ok: bool)
    | Tally(i: nat)
    | Kweb(vms: set<string>)
    | Begin(view: View)
    | Read
    | Advance

  function At(s: Site, i: nat, pc: CreatePc): Site
    requires i < |s.makers|
  {
    s.(makers := s.makers[i := s.makers[i].(pc := pc)])
  }

  /** One step of request i. kweb refuses a VM name it already has. */
  function Request(cfg: Config, s: Site, i: nat, e: Happening): Site
    requires i < |s.makers|
  {
    var m := s.makers[i];
    match e
    case Check(_) =>
      if !m.pc.Ready? then s else At(s, i, if s.slice.row.Some? then Over else Admitted)
    case Make(_, ok) =>
      if !m.pc.Admitted? then s
      else if !ok || (m.kind == VM && m.kcliName in s.vms) then At(s, i, Over)
      else At(s, i, Made).(vms := if m.kind == VM then s.vms + {m.kcliName} else s.vms)
    case Store(_, ok) =>
      if !m.pc.Made? then s
      else if !ok then At(s, i, Undoing)
      else At(s, i, Written).(slice := StepSlice(cfg, s.slice, Inserting(m)))
    case Undo(_, ok) =>
      if !m.pc.Undoing? then s
      else At(s, i, Over).(vms := if ok && m.kind == VM then s.vms - {m.kcliName} else s.vms)
    case Tally(_) =>
      if !m.pc.Written? then s else At(s, i, Over).(slice := StepSlice(cfg, s.slice, Count(m.kind, 1)))
    case _ => s
  }

  function Inserting(m: Maker): Act {
    Insert(m.kcliName, m.kind, FirstStatus(m.kind), m.createdAt)
  }

  predicate OfRequest(e: Happening) {
    e.Check? || e.Make? || e.Store? || e.Undo? || e.Tally?
  }

  /**
   One step. A VM listing shows exactly what kweb has; nobody else brings the stored row's VM back into
   kweb. Cluster listings are arbitrary, since kweb builds clusters in the background.
  */
  function After(cfg: Config, s: Site, e: Happening): Site {
    match e
    case Kweb(vms) =>
      if s.slice.row.Some? && s.slice.row.value.kcliName in vms - s.vms then s else s.(vms := vms)
    case Begin(view) =>
      if s.poll.Resting? && (view.vms.Some? ==> view.vms.value.Keys == s.vms) then s.(poll := Listed(view)) else s
    case Read =>
      if s.poll.Listed? then s.(poll := Busy(Program(cfg, s.slice.row, s.poll.view, s.slice.id))) else s
    case Advance =>
      if !s.poll.Busy? then s
      else if s.poll.todo == [] || NothingDue(cfg, s.slice, s.poll.todo) then s.(poll := Resting)
      else s.(slice := StepSlice(cfg, s.slice, s.poll.todo[0]), poll := Busy(s.poll.todo[1..]))
    case _ => if e.i < |s.makers| then Request(cfg, s, e.i, e) else s
  }

  function AfterAll(cfg: Config, s: Site, es: seq<Happening>): Site {
    if es == [] then s else After(cfg, AfterAll(cfg, s, es[..|es| - 1]), es[|es| - 1])
  }

  /** No request has begun and no poll is running. */
  ghost predicate Idle(s: Site) {
    && s.poll.Resting? && (s.slice.row.Some? ==> s.slice.row.value.id == s.slice.id)
    && (forall i :: 0 <= i < |s.makers| ==> s.makers[i].pc.Ready?)
  }

  predicate InFlight(m: Maker) {
    m.pc.Admitted? || m.pc.Made?
  }

  /** At most one request for the id is past its id check and has not stored its row. */
  ghost predicate Lone(s: Site) {
    forall i, j :: 0 <= i < j < |s.makers| ==> !(InFlight(s.makers[i]) && InFlight(s.makers[j]))
  }

  /** The open poll listed kweb's VMs and missed this name; it has yet to list the store. */
  predicate Missed(p: PollPc, name: string) {
    p.Listed? && p.view.vms.Some? && name !in p.view.vms.value
  }

  /** The poll has set out to delete the row. */
  predicate Erasing(p: PollPc) {
    Erase in TodoOf(p)
  }

  /** This step stores a new row of the kind. */
  predicate Stores(s: Site, e: Happening, kind: string) {
    e.Store? && e.ok && e.i < |s.makers| && s.makers[e.i].pc.Made? && s.makers[e.i].kind == kind
  }

  /** This step brings the stored VM row's missing VM into kweb. */
  predicate Revives(s: Site, e: Happening) {
    && e.Make? && e.ok && e.i < |s.makers| && s.makers[e.i].pc.Admitted? && s.makers[e.i].kind == VM
    && s.makers[e.i].kcliName !in s.vms
    && s.slice.row.Some? && s.slice.row.value.kind == VM && s.slice.row.value.kcliName == s.makers[e.i].kcliName
  }

  /**
   A step that puts a row of the kind in the monitor's way. For clusters: a store while the poll is set to
   delete the row. For VMs: a store of a VM kweb has, or the return of the stored row's VM, while the poll is
   set to delete the row or its listing of kweb, already taken, missed the VM.
  */
  predicate Exposes(s: Site, e: Happening, kind: string) {
    if kind == CLUSTER then Stores(s, e, CLUSTER) && Erasing(s.poll)
    else
      || (Stores(s, e, VM) && s.makers[e.i].kcliName in s.vms
          && (Erasing(s.poll) || Missed(s.poll, s.makers[e.i].kcliName)))
      || (Revives(s, e)
          && (Erasing(s.poll) || (Missed(s.poll, s.makers[e.i].kcliName) && !Leaving(s.slice.row.value.status))))
  }

  /** No step so far was exposing. */
  ghost predicate Unexposed(cfg: Config, s: Site, es: seq<Happening>, kind: string) {
    es == [] || (var init := es[..|es| - 1];
                 Unexposed(cfg, s, init, kind) && !Exposes(AfterAll(cfg, s, init), es[|es| - 1], kind))
  }

  ghost predicate AllLone(cfg: Config, s: Site, es: seq<Happening>) {
    Lone(AfterAll(cfg, s, es)) && (es == [] || AllLone(cfg, s, es[..|es| - 1]))
  }

  /** No step so far stored a live VM that the open listing of kweb had missed. */
  ghost predicate NoneLate(cfg: Config, s: Site, es: seq<Happening>) {
    es == [] || (var init := es[..|es| - 1];
                 NoneLate(cfg, s, init) && !StoresLate(AfterAll(cfg, s, init), es[|es| - 1]))
  }

  predicate StoresLate(s: Site, e: Happening) {
    Stores(s, e, VM) && s.makers[e.i].kcliName in s.vms && Missed(s.poll, s.makers[e.i].kcliName)
  }

  predicate StillCreating(row: Option<Entry>) {
    row.Some? && row.value.kind == CLUSTER && row.value.status == CREATING
  }

  /** The row is a VM that kweb has. */
  predicate LiveVm(s: Site) {
    s.slice.row.Some? && s.slice.row.value.kind == VM && s.slice.row.value.kcliName in s.vms
  }

  /** The next thing the poll does is delete the row. */
  predicate AboutToErase(p: PollPc) {
    p.Busy? && p.todo != [] && p.todo[0] == Erase
  }

  /** What the monitor must not delete: a cluster still in CREATING, a VM that kweb has. */
  predicate Protected(s: Site, kind: string) {
    if kind == CLUSTER then StillCreating(s.slice.row) else LiveVm(s)
  }

  /** The monitor is about to delete it all the same. */
  predicate Harm(s: Site, kind: string) {
    AboutToErase(s.poll) && Protected(s, kind)
  }

  // ---------- Sequencing ----------

  lemma NothingYet(cfg: Config, s: Site)
    ensures AfterAll(cfg, s, []) == s && (Lone(s) ==> AllLone(cfg, s, []))
  {
  }

  lemma AfterAllAppend(cfg: Config, s: Site, es: seq<Happening>, e: Happening)
    ensures AfterAll(cfg, s, es + [e]) == After(cfg, AfterAll(cfg, s, es), e)
  {
  }

  lemma AfterOne(cfg: Config, s: Site, e: Happening)
    ensures AfterAll(cfg, s, [e]) == After(cfg, s, e)
  {
    assert [e][..0] == [];
  }

  lemma {:induction false} AfterAllSplit(cfg: Config, s: Site, a: seq<Happening>, b: seq<Happening>)
    ensures AfterAll(cfg, s, a + b) == AfterAll(cfg, AfterAll(cfg, s, a), b)
  {
    hide After;
    if b == [] {
      assert a + b == a;
    } else {
      assert (a + b)[..|a + b| - 1] == a + b[..|b| - 1];
      AfterAllSplit(cfg, s, a, b[..|b| - 1]);
    }
  }

  function Advances(n: nat): seq<Happening> {
    if n == 0 then [] else [Advance] + Advances(n - 1)
  }

  /** The steps of one request that nothing goes wrong with. */
  function RequestSteps(i: nat): seq<Happening> {
    [Check(i)] + [Make(i, true)] + [Store(i, true)] + [Tally(i)]
  }

  /** An undisturbed request for an absent id is a creation round; kweb gains its VM. */
  lemma WholeRequest(cfg: Config, s: Site, i: nat)
    requires i < |s.makers| && s.makers[i].pc.Ready? && s.slice.row.None?
    requires s.makers[i].kind == VM ==> s.makers[i].kcliName !in s.vms
    ensures var m := s.makers[i];
            var e := Entry(s.slice.id, m.kcliName, m.kind, FirstStatus(m.kind), m.createdAt);
            AfterAll(cfg, s, RequestSteps(i))
            == At(s, i, Over).(slice := Rounds.SliceRound(cfg, s.slice, Rounds.CreateRound(e)),
                               vms := if m.kind == VM then s.vms + {m.kcliName} else s.vms)
  {
    hide AfterAll;
    var a, b, c, d := Check(i), Make(i, true), Store(i, true), Tally(i);
    NothingYet(cfg, s);
    AfterAllAppend(cfg, s, [], a);
    assert [] + [a] == [a];
    AfterAllAppend(cfg, s, [a], b);
    AfterAllAppend(cfg, s, [a] + [b], c);
    AfterAllAppend(cfg, s, [a] + [b] + [c], d);
    var kind := s.makers[i].kind;
    assert s.slice.notes + [Stored(FirstStatus(kind))] + [Counted(kind, 1)]
           == s.slice.notes + [Stored(FirstStatus(kind)), Counted(kind, 1)];
  }

  // ---------- One creation in flight ----------

  /** A program with an erasure left has a live row that is not a cluster in CREATING, and changes no status. */
  ghost predicate Guarded(s: Site) {
    && (s.slice.row.Some? ==> s.slice.row.value.id == s.slice.id)
    && (forall i :: 0 <= i < |s.makers| && InFlight(s.makers[i]) ==> s.slice.row.None?)
    && CleanTodo(TodoOf(s.poll))
    && (Erase in TodoOf(s.poll) ==> s.slice.row.Some? && !StillCreating(s.slice.row))
  }

  /** At most one erasure, never together with a status change, and never an insertion. */
  ghost predicate CleanTodo(todo: seq<Act>) {
    && (forall i :: 0 <= i < |todo| ==> !todo[i].Insert?)
    && (Erase in todo ==> forall i :: 0 <= i < |todo| ==> !todo[i].SetStatus?)
    && (forall i, j :: 0 <= i < j < |todo| ==> !(todo[i] == Erase && todo[j] == Erase))
  }

  lemma ProgramClean(cfg: Config, row: Option<Entry>, view: View, id: string)
    ensures CleanTodo(Program(cfg, row, view, id))
    ensures Erase in Program(cfg, row, view, id) ==>
              && row.Some? && !StillCreating(row) && !Leaving(row.value.status)
              && (row.value.kind == VM ==> view.vms.Some? && row.value.kcliName !in view.vms.value)
  {
    hide MapVmStatus, MapClusterStatus;
    assert VM != CLUSTER;
    if row.Some? {
      match Decide(cfg, row.value, view) {
        case Keep =>
        case Remove =>
        case Become(status) =>
      }
    }
  }

  lemma TailClean(todo: seq<Act>)
    requires CleanTodo(todo) && todo != []
    ensures CleanTodo(todo[1..]) && (todo[0] == Erase ==> Erase !in todo[1..])
    ensures (todo[0].SetStatus? ==> Erase !in todo) && !todo[0].Insert? && (Erase in todo[1..] ==> Erase in todo)
  {
  }

  lemma RequestGuarded(cfg: Config, s: Site, e: Happening)
    requires Guarded(s) && Lone(s) && OfRequest(e)
    ensures Guarded(After(cfg, s, e))
  {
    hide CleanTodo;
  }

  lemma PollGuarded(cfg: Config, s: Site, e: Happening)
    requires Guarded(s) && !OfRequest(e)
    ensures Guarded(After(cfg, s, e))
  {
    assert CleanTodo([]);
    hide CleanTodo, Program;
    if e.Read? && s.poll.Listed? {
      ProgramClean(cfg, s.slice.row, s.poll.view, s.slice.id);
    } else if e.Advance? && s.poll.Busy? && s.poll.todo != [] {
      TailClean(s.poll.todo);
    }
  }

  lemma {:induction false} GuardedThroughout(cfg: Config, s: Site, es: seq<Happening>)
    requires Guarded(s) && AllLone(cfg, s, es)
    ensures Guarded(AfterAll(cfg, s, es))
  {
    hide After, Guarded, Lone;
    if es != [] {
      var init, e := es[..|es| - 1], es[|es| - 1];
      GuardedThroughout(cfg, s, init);
      if OfRequest(e) {
        RequestGuarded(cfg, AfterAll(cfg, s, init), e);
      } else {
        PollGuarded(cfg, AfterAll(cfg, s, init), e);
      }
    }
  }

  // ---------- What the monitor may delete ----------

  /** A pending erasure is not of a protected row, and a live VM's row that may be removed is in the open listing. */
  ghost predicate Safe(s: Site, kind: string) {
    && (s.slice.row.Some? ==> s.slice.row.value.id == s.slice.id)
    && CleanTodo(TodoOf(s.poll))
    && (Erasing(s.poll) ==> !Protected(s, kind))
    && (kind != CLUSTER && LiveVm(s) && !Leaving(s.slice.row.value.status) ==>
          !Missed(s.poll, s.slice.row.value.kcliName))
  }

  lemma RequestSafe(cfg: Config, s: Site, e: Happening, kind: string)
    requires Safe(s, kind) && !Exposes(s, e, kind) && OfRequest(e)
    ensures Safe(After(cfg, s, e), kind)
  {
    hide CleanTodo;
    assert VM != CLUSTER;
  }

  lemma ReadSafe(cfg: Config, s: Site, kind: string)
    requires Safe(s, kind) && s.poll.Listed?
    ensures Safe(After(cfg, s, Read), kind)
  {
    hide CleanTodo, Program;
    assert VM != CLUSTER;
    ProgramClean(cfg, s.slice.row, s.poll.view, s.slice.id);
  }

  lemma AdvanceSafe(cfg: Config, s: Site, kind: string)
    requires Safe(s, kind) && s.poll.Busy?
    ensures Safe(After(cfg, s, Advance), kind)
  {
    assert CleanTodo([]);
    hide CleanTodo;
    if s.poll.todo != [] {
      TailClean(s.poll.todo);
    }
  }

  lemma AfterSafe(cfg: Config, s: Site, e: Happening, kind: string)
    requires Safe(s, kind) && !Exposes(s, e, kind)
    ensures Safe(After(cfg, s, e), kind)
  {
    if OfRequest(e) {
      RequestSafe(cfg, s, e, kind);
    } else if e.Read? && s.poll.Listed? {
      ReadSafe(cfg, s, kind);
    } else if e.Advance? && s.poll.Busy? {
      AdvanceSafe(cfg, s, kind);
    } else {
      hide CleanTodo;
    }
  }

  lemma {:induction false} SafeThroughout(cfg: Config, s: Site, es: seq<Happening>, kind: string)
    requires Safe(s, kind) && Unexposed(cfg, s, es, kind)
    ensures Safe(AfterAll(cfg, s, es), kind)
  {
    hide After, Safe, Exposes;
    if es != [] {
      var init := es[..|es| - 1];
      SafeThroughout(cfg, s, init, kind);
      AfterSafe(cfg, AfterAll(cfg, s, init), es[|es| - 1], kind);
    }
  }

  /**
   However create requests and polls interleave: as long as no step is exposing, the monitor never deletes a
   cluster row that is still in CREATING, nor the row of a VM that kweb has.
  */
  lemma NeverErased(cfg: Config, s: Site, es: seq<Happening>, kind: string)
    requires Idle(s) && KnownKind(kind) && Unexposed(cfg, s, es, kind)
    ensures !Harm(AfterAll(cfg, s, es), kind)
  {
    hide AfterAll, Unexposed;
    SafeThroughout(cfg, s, es, kind);
  }

  lemma IdleIsGuarded(s: Site)
    requires Idle(s)
    ensures Guarded(s)
  {
  }

  /**
   One creation of the id in flight at a time is enough for clusters, and for VMs if besides no row is stored
   between a poll's kweb listing that missed its VM and that poll's store listing.
  */
  lemma {:induction false} OneAtATimeSuffices(cfg: Config, s: Site, es: seq<Happening>)
    requires Idle(s) && AllLone(cfg, s, es)
    ensures Unexposed(cfg, s, es, CLUSTER)
    ensures NoneLate(cfg, s, es) ==> Unexposed(cfg, s, es, VM)
  {
    hide After, Lone;
    assert VM != CLUSTER;
    if es != [] {
      var init := es[..|es| - 1];
      OneAtATimeSuffices(cfg, s, init);
      IdleIsGuarded(s);
      GuardedThroughout(cfg, s, init);
      hide CleanTodo, AllLone, AfterAll;
    }
  }

  // ---------- The race ----------

  lemma LoneAppend(cfg: Config, s: Site, es: seq<Happening>, e: Happening)
    requires AllLone(cfg, s, es) && Lone(AfterAll(cfg, s, es + [e]))
    ensures AllLone(cfg, s, es + [e])
  {
    assert (es + [e])[..|es|] == es;
  }

  lemma RemovalProgram(cfg: Config, e: Entry, view: View, id: string)
    requires Decide(cfg, e, view) == Remove
    ensures var todo := Program(cfg, Some(e), view, id);
            |todo| >= 3 && todo[0].Schedule? && todo[1] == Emit && todo[1..][1..] != [] && todo[1..][1..][0] == Erase
  {
  }

  /** From its listing of kweb on, a poll that will remove the row comes to the point of erasing it. */
  lemma UpToErase(cfg: Config, s: Site, es: seq<Happening>)
    requires var t := AfterAll(cfg, s, es);
             && t.poll.Listed? && t.slice.row.Some? && Decide(cfg, t.slice.row.value, t.poll.view) == Remove
    ensures var t, u := AfterAll(cfg, s, es), AfterAll(cfg, s, es + [Read] + [Advance] + [Advance]);
            && AboutToErase(u.poll) && u.slice.row == t.slice.row && u.vms == t.vms && u.makers == t.makers
            && u.slice.id == t.slice.id
  {
    hide AfterAll, Program;
    var t := AfterAll(cfg, s, es);
    AfterAllAppend(cfg, s, es, Read);
    AfterAllAppend(cfg, s, es + [Read], Advance);
    AfterAllAppend(cfg, s, es + [Read] + [Advance], Advance);
    RemovalProgram(cfg, t.slice.row.value, t.poll.view, t.slice.id);
  }

  /** Steps of the poll expose nothing and start no request. */
  lemma {:induction false} PollStepsHarmless(cfg: Config, s: Site, es: seq<Happening>, kind: string)
    requires forall i :: 0 <= i < |es| ==> es[i].Read? || es[i].Advance?
    ensures Unexposed(cfg, s, es, kind) && AfterAll(cfg, s, es).makers == s.makers && AfterAll(cfg, s, es).vms == s.vms
    ensures Lone(s) ==> AllLone(cfg, s, es)
  {
    hide Program;
    if es != [] {
      PollStepsHarmless(cfg, s, es[..|es| - 1], kind);
      hide AfterAll;
    }
  }

  lemma LoneHere(cfg: Config, s: Site, es: seq<Happening>)
    requires AllLone(cfg, s, es)
    ensures Lone(AfterAll(cfg, s, es))
  {
  }

  lemma UnlistedVm(cfg: Config, e: Entry, view: View)
    requires e.kind == VM && !Leaving(e.status) && view.vms.Some? && e.kcliName !in view.vms.value
    ensures Decide(cfg, e, view) == Remove
  {
  }

  /** A poll set to delete the row gets there, with the row as it is. */
  lemma {:induction false} AdvanceToErase(cfg: Config, s: Site) returns (n: nat)
    requires Erasing(s.poll) && CleanTodo(TodoOf(s.poll))
    ensures var t := AfterAll(cfg, s, Advances(n));
            AboutToErase(t.poll) && t.slice.row == s.slice.row && t.vms == s.vms
    decreases |TodoOf(s.poll)|
  {
    hide AfterAll;
    if AboutToErase(s.poll) {
      n := 0;
      NothingYet(cfg, s);
    } else {
      var t := After(cfg, s, Advance);
      TailClean(s.poll.todo);
      assert Erase in t.poll.todo;
      var m := AdvanceToErase(cfg, t);
      n := m + 1;
      AfterOne(cfg, s, Advance);
      AfterAllSplit(cfg, s, [Advance], Advances(m));
    }
  }

  lemma {:induction false} AdvancesAdvance(n: nat)
    ensures forall i :: 0 <= i < |Advances(n)| ==> Advances(n)[i].Advance?
  {
    if n > 0 {
      AdvancesAdvance(n - 1);
    }
  }

  /** After an exposing step the poll, left to itself, comes to delete what it must not. */
  lemma ExposedIsErased(cfg: Config, s: Site, e: Happening, kind: string) returns (es: seq<Happening>)
    requires Safe(s, kind) && KnownKind(kind) && Exposes(s, e, kind)
    ensures var t := After(cfg, s, e);
            && Unexposed(cfg, t, es, kind) && Harm(AfterAll(cfg, t, es), kind)
            && AfterAll(cfg, t, es).slice.row == t.slice.row && (Lone(t) ==> AllLone(cfg, t, es))
  {
    hide AfterAll, Unexposed, AllLone, Lone;
    assert VM != CLUSTER && !Leaving(PROVISIONING);
    var t := After(cfg, s, e);
    assert t.poll == s.poll && Protected(t, kind);
    if Erasing(t.poll) {
      var n := AdvanceToErase(cfg, t);
      es := Advances(n);
      AdvancesAdvance(n);
    } else {
      UnlistedVm(cfg, t.slice.row.value, t.poll.view);
      hide Decide;
      var none: seq<Happening> := [];
      NothingYet(cfg, t);
      UpToErase(cfg, t, none);
      es := none + [Read] + [Advance] + [Advance];
    }
    PollStepsHarmless(cfg, t, es, kind);
  }

  /**
   The exact condition, for clusters in CREATING and for VMs that kweb has: in every state reached so far
   without an exposing step, the next step can lead, without any further exposing step, to the deletion of
   such a row if and only if it is itself exposing.
  */
  lemma ErasedIff(cfg: Config, s0: Site, es0: seq<Happening>, e: Happening, kind: string)
    requires Idle(s0) && KnownKind(kind) && Unexposed(cfg, s0, es0, kind)
    ensures var s := AfterAll(cfg, s0, es0);
            var t := After(cfg, s, e);
            (exists es :: Unexposed(cfg, t, es, kind) && Harm(AfterAll(cfg, t, es), kind)) <==> Exposes(s, e, kind)
  {
    hide AfterAll, Unexposed, After, Exposes;
    var s := AfterAll(cfg, s0, es0);
    var t := After(cfg, s, e);
    SafeThroughout(cfg, s0, es0, kind);
    if Exposes(s, e, kind) {
      var es := ExposedIsErased(cfg, s, e, kind);
    } else {
      AfterSafe(cfg, s, e, kind);
      forall es | Unexposed(cfg, t, es, kind)
        ensures !Harm(AfterAll(cfg, t, es), kind)
      {
        SafeThroughout(cfg, t, es, kind);
      }
    }
  }

  // ---------- Instances ----------

  /** An honest poll lists kweb without the VM, the creation begins, and comes to storing its row too late. */
  lemma UpToLateStore(cfg: Config, s: Site, i: nat) returns (es: seq<Happening>)
    requires Idle(s) && s.slice.row.None? && i < |s.makers|
    requires s.makers[i].kind == VM && s.makers[i].kcliName !in s.vms
    ensures AllLone(cfg, s, es) && StoresLate(AfterAll(cfg, s, es), Store(i, true))
    ensures AfterAll(cfg, s, es).slice == s.slice
    ensures AfterAll(cfg, s, es).makers == s.makers[i := s.makers[i].(pc := Made)]
  {
    hide AfterAll, AllLone;
    var view := ViewAt(VM, s.vms, 0);
    assert view.vms.value.Keys == s.vms;
    hide ViewAt;
    var es0: seq<Happening> := [];
    var es1 := es0 + [Begin(view)];
    var es2 := es1 + [Check(i)];
    es := es2 + [Make(i, true)];
    NothingYet(cfg, s);
    AfterAllAppend(cfg, s, es0, Begin(view));
    AfterAllAppend(cfg, s, es1, Check(i));
    AfterAllAppend(cfg, s, es2, Make(i, true));
    LoneAppend(cfg, s, es0, Begin(view));
    LoneAppend(cfg, s, es1, Check(i));
    LoneAppend(cfg, s, es2, Make(i, true));
  }

  /** The race from the start: an idle state without the row, one creation and one honest poll. */
  lemma NewVmErased(cfg: Config, s: Site, i: nat)
    requires Idle(s) && s.slice.row.None? && i < |s.makers|
    requires s.makers[i].kind == VM && s.makers[i].kcliName !in s.vms
    ensures exists es: seq<Happening> :: var t := AfterAll(cfg, s, es);
              && AllLone(cfg, s, es) && Harm(t, VM)
              && t.slice.row == Some(Entry(s.slice.id, s.makers[i].kcliName, VM, PROVISIONING, s.makers[i].createdAt))
  {
    hide AfterAll, AllLone, StoresLate, Harm, Unexposed;
    var es := UpToLateStore(cfg, s, i);
    var t := AfterAll(cfg, s, es);
    var e := Store(i, true);
    LoneHere(cfg, s, es);
    LateIsExposing(t, e);
    AfterAllAppend(cfg, s, es, e);
    StoringKeepsLone(cfg, t, i);
    var more := ExposedIsErased(cfg, t, e, VM);
    LoneAppend(cfg, s, es, e);
    LaterLone(cfg, s, es + [e], more);
  }

  lemma LateIsExposing(s: Site, e: Happening)
    requires StoresLate(s, e) && s.slice.row.None?
    ensures Exposes(s, e, VM) && Safe(s, VM)
  {
    assert VM != CLUSTER;
  }

  lemma StoringKeepsLone(cfg: Config, s: Site, i: nat)
    requires Lone(s)
    ensures Lone(After(cfg, s, Store(i, true)))
  {
  }

  lemma {:induction false} LaterLone(cfg: Config, s: Site, a: seq<Happening>, b: seq<Happening>)
    requires AllLone(cfg, s, a) && AllLone(cfg, AfterAll(cfg, s, a), b)
    ensures AllLone(cfg, s, a + b) && AfterAll(cfg, s, a + b) == AfterAll(cfg, AfterAll(cfg, s, a), b)
  {
    hide After, Lone;
    if b == [] {
      assert a + b == a;
    } else {
      assert (a + b)[..|a + b| - 1] == a + b[..|b| - 1];
      LaterLone(cfg, s, a, b[..|b| - 1]);
    }
  }

  // ---------- Two creations in flight ----------

  lemma {:induction false} RestingAdvances(cfg: Config, s: Site, n: nat)
    requires s.poll.Resting?
    ensures AfterAll(cfg, s, Advances(n)) == s
  {
    hide AfterAll;
    if n > 0 {
      RestingAdvances(cfg, s, n - 1);
      AfterOne(cfg, s, Advance);
      AfterAllSplit(cfg, s, [Advance], Advances(n - 1));
    } else {
      NothingYet(cfg, s);
    }
  }

  lemma {:induction false} ProgramAdvances(cfg: Config, s: Site)
    requires s.poll.Busy?
    ensures AfterAll(cfg, s, Advances(|s.poll.todo| + 1))
            == s.(slice := ExecSlice(cfg, s.slice, s.poll.todo), poll := Resting)
    decreases |TodoOf(s.poll)|
  {
    hide AfterAll, ExecSlice;
    var todo := s.poll.todo;
    var t := After(cfg, s, Advance);
    AfterAllSplit(cfg, s, [Advance], Advances(|todo|));
    AfterOne(cfg, s, Advance);
    if todo == [] {
      RestingAdvances(cfg, t, 0);
      NoActs(cfg, s.slice);
    } else if NothingDue(cfg, s.slice, todo) {
      RestingAdvances(cfg, t, |todo|);
      NothingDueSkips(cfg, s.slice, todo);
    } else {
      ProgramAdvances(cfg, t);
      ExecSliceCons(cfg, s.slice, todo[0], todo[1..]);
      assert todo == [todo[0]] + todo[1..];
    }
  }

  /** A whole poll. */
  lemma PollHappens(cfg: Config, s: Site, view: View) returns (es: seq<Happening>)
    requires s.poll.Resting? && view.vms.None?
    requires s.slice.held.None? && (s.slice.row.Some? ==> s.slice.row.value.id == s.slice.id)
    ensures AfterAll(cfg, s, es) == s.(slice := Polled(cfg, s.slice, view))
  {
    hide AfterAll, Polled, ExecSlice, Program;
    var s1 := After(cfg, s, Begin(view));
    var s2 := After(cfg, s1, Read);
    AfterOne(cfg, s, Begin(view));
    AfterOne(cfg, s1, Read);
    AfterAllSplit(cfg, s, [Begin(view)], [Read]);
    ProgramAdvances(cfg, s2);
    ProgramPolls(cfg, s.slice, view);
    es := [Begin(view)] + [Read] + Advances(|s2.poll.todo| + 1);
    AfterAllSplit(cfg, s, [Begin(view)] + [Read], Advances(|s2.poll.todo| + 1));
  }

  lemma {:induction false} NoStoreNoneLate(cfg: Config, s: Site, es: seq<Happening>)
    requires forall i :: 0 <= i < |es| ==> !es[i].Store?
    ensures NoneLate(cfg, s, es)
  {
    if es != [] {
      NoStoreNoneLate(cfg, s, es[..|es| - 1]);
    }
  }

  lemma {:induction false} NoneLateSplit(cfg: Config, s: Site, a: seq<Happening>, b: seq<Happening>)
    requires NoneLate(cfg, s, a) && NoneLate(cfg, AfterAll(cfg, s, a), b)
    ensures NoneLate(cfg, s, a + b)
  {
    hide AfterAll, StoresLate;
    if b == [] {
      assert a + b == a;
    } else {
      assert (a + b)[..|a + b| - 1] == a + b[..|b| - 1];
      NoneLateSplit(cfg, s, a, b[..|b| - 1]);
      AfterAllSplit(cfg, s, a, b[..|b| - 1]);
    }
  }

  /** A store while no listing is open is not late. */
  lemma StoreNotLate(cfg: Config, s: Site, e: Happening)
    requires !s.poll.Listed?
    ensures NoneLate(cfg, s, [e])
  {
    assert [e][..0] == [];
  }

  /** Two requests for one kind both pass the id check, and the first one stores its row. */
  lemma TwoAdmitted(cfg: Config, s: Site, i: nat, j: nat, kind: string) returns (es: seq<Happening>)
    requires Idle(s) && s.slice.row.None? && i < |s.makers| && j < |s.makers| && i != j && KnownKind(kind)
    requires s.makers[i].kind == s.makers[j].kind == kind && (kind == VM ==> s.makers[i].kcliName !in s.vms)
    ensures var m := s.makers[i];
            AfterAll(cfg, s, es)
            == s.(makers := s.makers[i := m.(pc := Written)][j := s.makers[j].(pc := Admitted)],
                  vms := if kind == VM then s.vms + {m.kcliName} else s.vms,
                  slice := StepSlice(cfg, s.slice, Inserting(m)))
    ensures NoneLate(cfg, s, es)
  {
    hide AfterAll, StepSlice, NoneLate;
    assert VM != CLUSTER;
    var before := [Check(i)] + [Check(j)] + [Make(i, true)];
    NoStoreNoneLate(cfg, s, before);
    es := [Check(i)] + [Check(j)] + [Make(i, true)] + [Store(i, true)];
    AfterOne(cfg, s, Check(i));
    AfterAllAppend(cfg, s, [Check(i)], Check(j));
    AfterAllAppend(cfg, s, [Check(i)] + [Check(j)], Make(i, true));
    AfterAllAppend(cfg, s, before, Store(i, true));
    StoreNotLate(cfg, AfterAll(cfg, s, before), Store(i, true));
    NoneLateSplit(cfg, s, before, [Store(i, true)]);
  }

  /** A poll that finds the cluster makes the row ACTIVE; the next one misses it and is about to erase the row. */
  lemma ActiveThenMissed(cfg: Config, s: Site) returns (es: seq<Happening>)
    requires s.poll.Resting? && s.slice.held.None? && StillCreating(s.slice.row)
    requires s.slice.row.value.id == s.slice.id
    ensures AboutToErase(AfterAll(cfg, s, es).poll) && AfterAll(cfg, s, es).makers == s.makers
  {
    hide AfterAll;
    var e := s.slice.row.value;
    var up, empty := ViewAt(CLUSTER, {e.kcliName}, 0), ViewAt(CLUSTER, {}, 0);
    var first := PollHappens(cfg, s, up);
    var t := AfterAll(cfg, s, first);
    CreatingBecomesActive(cfg, s.slice, e);
    var active := t.slice.row.value;
    UnlistedIsRemoved(cfg, active, 0);
    hide Decide, Polled;
    AfterAllAppend(cfg, s, first, Begin(empty));
    UpToErase(cfg, s, first + [Begin(empty)]);
    es := first + [Begin(empty)] + [Read] + [Advance] + [Advance];
  }

  lemma CreatingBecomesActive(cfg: Config, s: Slice, e: Entry)
    requires s.row == Some(e) && StillCreating(s.row) && e.id == s.id
    ensures var t := Polled(cfg, s, ViewAt(CLUSTER, {e.kcliName}, 0));
            t.row == Some(e.(status := LiveStatus(CLUSTER))) && t.id == s.id
  {
    assert VM != CLUSTER && ACTIVE[0] == 'A' && CREATING[0] == 'C';
  }

  /** The VM just stored vanishes from kweb, and a poll misses it and is about to erase its row. */
  lemma VanishedThenMissed(cfg: Config, s: Site) returns (es: seq<Happening>)
    requires s.poll.Resting? && s.slice.row.Some? && s.slice.row.value.kind == VM
    requires s.slice.row.value.status == PROVISIONING
    ensures var t := AfterAll(cfg, s, es);
            AboutToErase(t.poll) && t.makers == s.makers && t.vms == s.vms - {s.slice.row.value.kcliName}
    ensures NoneLate(cfg, s, es)
  {
    hide AfterAll, NoneLate;
    var left := s.vms - {s.slice.row.value.kcliName};
    var view := ViewAt(VM, left, 0);
    assert view.vms.value.Keys == left && !Leaving(PROVISIONING);
    hide ViewAt;
    AfterOne(cfg, s, Kweb(left));
    AfterAllAppend(cfg, s, [Kweb(left)], Begin(view));
    UnlistedVm(cfg, s.slice.row.value, view);
    hide Decide;
    UpToErase(cfg, s, [Kweb(left)] + [Begin(view)]);
    es := [Kweb(left)] + [Begin(view)] + [Read] + [Advance] + [Advance];
    NoStoreNoneLate(cfg, s, es);
  }

  /** The second of two requests goes on and stores its row while the poll is about to erase the first one's. */
  lemma SecondStores(cfg: Config, s: Site, es: seq<Happening>, j: nat)
    requires var t := AfterAll(cfg, s, es);
             && AboutToErase(t.poll) && j < |t.makers| && t.makers[j].pc.Admitted?
             && KnownKind(t.makers[j].kind) && (t.makers[j].kind == VM ==> t.makers[j].kcliName !in t.vms)
    ensures var t, u := AfterAll(cfg, s, es), AfterAll(cfg, s, es + [Make(j, true)] + [Store(j, true)]);
            Harm(u, t.makers[j].kind) && u.slice.row.value.kcliName == t.makers[j].kcliName
    ensures NoneLate(cfg, s, es) ==> NoneLate(cfg, s, es + [Make(j, true)] + [Store(j, true)])
  {
    hide AfterAll, NoneLate;
    var made := es + [Make(j, true)];
    NoStoreNoneLate(cfg, AfterAll(cfg, s, es), [Make(j, true)]);
    if NoneLate(cfg, s, es) {
      NoneLateSplit(cfg, s, es, [Make(j, true)]);
    }
    assert VM != CLUSTER;
    AfterAllAppend(cfg, s, es, Make(j, true));
    AfterAllAppend(cfg, s, made, Store(j, true));
    StoreNotLate(cfg, AfterAll(cfg, s, made), Store(j, true));
    if NoneLate(cfg, s, es) {
      NoneLateSplit(cfg, s, made, [Store(j, true)]);
    }
  }

  /**
   With two creations in flight the rest is not enough. From an idle state without the row two cluster
   requests both pass the id check; the first one's cluster comes up and goes, and the second stores its
   CREATING row just before the poll erases the first one's.
  */
  lemma RacingCreateErased(cfg: Config, s: Site, i: nat, j: nat)
    requires Idle(s) && s.slice.row.None? && s.slice.held.None? && i < |s.makers| && j < |s.makers| && i != j
    requires s.makers[i].kind == s.makers[j].kind == CLUSTER
    ensures exists es: seq<Happening> :: var t := AfterAll(cfg, s, es);
              Harm(t, CLUSTER) && t.slice.row.value.kcliName == s.makers[j].kcliName
  {
    hide AfterAll, Harm;
    assert VM != CLUSTER;
    var a := TwoAdmitted(cfg, s, i, j, CLUSTER);
    var b := ActiveThenMissed(cfg, AfterAll(cfg, s, a));
    AfterAllSplit(cfg, s, a, b);
    SecondStores(cfg, s, a + b, j);
    assert Harm(AfterAll(cfg, s, a + b + [Make(j, true)] + [Store(j, true)]), CLUSTER);
  }

  /**
   So it is for VMs, without a late store: two requests with different names pass the id check, the first
   one's VM vanishes, and the second stores a live VM's row just before the poll erases the first one's.
  */
  lemma RacingVmErased(cfg: Config, s: Site, i: nat, j: nat)
    requires Idle(s) && s.slice.row.None? && i < |s.makers| && j < |s.makers| && i != j
    requires s.makers[i].kind == s.makers[j].kind == VM && s.makers[i].kcliName != s.makers[j].kcliName
    requires s.makers[i].kcliName !in s.vms && s.makers[j].kcliName !in s.vms
    ensures exists es: seq<Happening> :: var t := AfterAll(cfg, s, es);
              NoneLate(cfg, s, es) && Harm(t, VM) && t.slice.row.value.kcliName == s.makers[j].kcliName
  {
    hide AfterAll, Harm, NoneLate;
    assert VM != CLUSTER;
    var a := TwoAdmitted(cfg, s, i, j, VM);
    var b := VanishedThenMissed(cfg, AfterAll(cfg, s, a));
    AfterAllSplit(cfg, s, a, b);
    NoneLateSplit(cfg, s, a, b);
    SecondStores(cfg, s, a + b, j);
    assert Harm(AfterAll(cfg, s, a + b + [Make(j, true)] + [Store(j, true)]), VM);
  }

  // ---------- Agreement with creations anywhere ----------

  /** What a poll still does for an id whose row is gone. */
  predicate Winding(todo: seq<Act>) {
    || todo == []
    || (|todo| == 1 && todo[0].Emit?)
    || (|todo| == 2 && todo[0].Flush? && todo[1].Emit?)
    || (|todo| == 3 && todo[0].Forget? && todo[1].Flush? && todo[2].Emit?)
    || (|todo| == 4 && todo[0].Count? && todo[1].Forget? && todo[2].Flush? && todo[3].Emit?)
  }

  /** Every scheduling is followed by its publication, and an erasure by counting and forgetting. */
  predicate Orderly(todo: seq<Act>) {
    todo == [] ||
    (&& (todo[0].Schedule? || todo[0].Flush? ==> |todo| >= 2 && todo[1].Emit?)
     && (todo[0].Erase? ==> |todo| == 5 && Winding(todo[1..]))
     && !todo[0].Insert? && Orderly(todo[1..]))
  }

  /** Agreement is kept, or the rest of the poll's program restores it. */
  ghost predicate Converging(cfg: Config, s: Site) {
    && (s.slice.row.Some? ==> s.slice.row.value.id == s.slice.id)
    && (s.slice.held.Some? ==> TodoOf(s.poll) != [] && TodoOf(s.poll)[0].Emit? && s.slice.row.Some?)
    && (!s.poll.Busy? ==> Agrees(s.slice))
    && (s.poll.Busy? ==> Orderly(s.poll.todo))
    && (s.poll.Busy? && s.slice.row.Some? ==> Agrees(ExecSlice(cfg, s.slice, s.poll.todo)))
    && (s.poll.Busy? && s.slice.row.None? ==>
          Winding(s.poll.todo) && (s.slice.pending.None? || |s.poll.todo| >= 3))
  }

  lemma OrderlyCons(act: Act, rest: seq<Act>)
    requires Orderly(rest) && !act.Insert?
    requires act.Schedule? || act.Flush? ==> rest != [] && rest[0].Emit?
    requires act.Erase? ==> |rest| == 4 && Winding(rest)
    ensures Orderly([act] + rest)
  {
    assert ([act] + rest)[1..] == rest;
  }

  lemma RemovalOrderly(kind: string, tick: Tick, flush: Tick)
    ensures Orderly(Carry(kind, Remove, tick) + [Flush(flush), Emit])
  {
    CarryAnd(kind, "", tick, [Flush(flush), Emit]);
    hide Orderly, Carry;
    var t5 := [Flush(flush), Emit];
    var t4 := [Forget] + t5;
    var t3 := [Count(kind, -1)] + t4;
    var t2 := [Erase] + t3;
    var t1 := [Emit] + t2;
    TailOrderly(flush);
    OrderlyCons(Forget, t5);
    OrderlyCons(Count(kind, -1), t4);
    OrderlyCons(Erase, t3);
    OrderlyCons(Emit, t2);
    OrderlyCons(Schedule(kind, DELETED, tick), t1);
  }

  lemma ReportOrderly(kind: string, status: string, tick: Tick, flush: Tick)
    ensures Orderly(Carry(kind, Become(status), tick) + [Flush(flush), Emit])
  {
    CarryAnd(kind, status, tick, [Flush(flush), Emit]);
    hide Orderly, Carry;
    var t3 := [Flush(flush), Emit];
    var t2 := [SetStatus(status)] + t3;
    var t1 := [Emit] + t2;
    TailOrderly(flush);
    OrderlyCons(SetStatus(status), t3);
    OrderlyCons(Emit, t2);
    OrderlyCons(Schedule(kind, status, tick), t1);
  }

  lemma TailOrderly(flush: Tick)
    ensures Orderly([Flush(flush), Emit])
  {
    assert Orderly([]);
    assert [Emit] + [] == [Emit] && [Flush(flush)] + [Emit] == [Flush(flush), Emit];
    OrderlyCons(Emit, []);
    OrderlyCons(Flush(flush), [Emit]);
  }

  lemma ProgramOrderly(cfg: Config, row: Option<Entry>, view: View, id: string)
    ensures Orderly(Program(cfg, row, view, id))
    ensures row.None? ==> Winding(Program(cfg, row, view, id))
  {
    hide Orderly, Decide;
    var flush := view.flush(id);
    TailOrderly(flush);
    assert [] + [Flush(flush), Emit] == [Flush(flush), Emit];
    if row.Some? {
      var verdict := Decide(cfg, row.value, view);
      if verdict.Remove? {
        RemovalOrderly(row.value.kind, view.tick(row.value.id), flush);
      } else if verdict.Become? {
        ReportOrderly(row.value.kind, verdict.status, view.tick(row.value.id), flush);
      }
    }
  }

  /** Equal but for notes that tell the same. */
  ghost predicate Alike(s: Slice, t: Slice) {
    t == s.(notes := t.notes) && Told(s.notes) == Told(t.notes)
  }

  lemma StepAlike(cfg: Config, s: Slice, t: Slice, act: Act)
    requires Alike(s, t)
    ensures Alike(StepSlice(cfg, s, act), StepSlice(cfg, t, act))
  {
    hide Told;
    var s', t' := StepSlice(cfg, s, act), StepSlice(cfg, t, act);
    if |s'.notes| > |s.notes| {
      var note := s'.notes[|s.notes|];
      assert s'.notes == s.notes + [note] && t'.notes == t.notes + [note];
      ToldSnoc(s.notes, note);
      ToldSnoc(t.notes, note);
    }
  }

  lemma {:induction false} ExecAlike(cfg: Config, s: Slice, t: Slice, acts: seq<Act>)
    requires Alike(s, t)
    ensures Alike(ExecSlice(cfg, s, acts), ExecSlice(cfg, t, acts))
  {
    hide Alike, StepSlice;
    if acts != [] {
      var init := acts[..|acts| - 1];
      ExecAlike(cfg, s, t, init);
      StepAlike(cfg, ExecSlice(cfg, s, init), ExecSlice(cfg, t, init), acts[|acts| - 1]);
    }
  }

  /** A new row under an id the poll is winding up: nothing it still does concerns the row. */
  lemma StoredWhileWinding(cfg: Config, s: Slice, m: Maker, todo: seq<Act>)
    requires s.row.None? && s.held.None? && Winding(todo) && (s.pending.None? || |todo| >= 3)
    ensures Agrees(ExecSlice(cfg, StepSlice(cfg, s, Inserting(m)), todo))
    decreases |todo|
  {
    hide Told;
    var t := StepSlice(cfg, s, Inserting(m));
    ToldSnoc(s.notes, Stored(FirstStatus(m.kind)));
    WindsUp(cfg, t, todo);
  }

  lemma {:induction false} WindsUp(cfg: Config, t: Slice, todo: seq<Act>)
    requires t.row.Some? && t.held.None? && Winding(todo) && (t.pending.None? || |todo| >= 3)
    requires Told(t.notes) == Some(t.row.value.status)
    ensures Agrees(ExecSlice(cfg, t, todo))
    decreases |todo|
  {
    hide Told;
    if todo != [] {
      var next := StepSlice(cfg, t, todo[0]);
      assert todo == [todo[0]] + todo[1..];
      ExecSliceCons(cfg, t, todo[0], todo[1..]);
      if todo[0].Count? {
        ToldSnoc(t.notes, Counted(todo[0].kind, todo[0].delta));
      } else if todo[0].Forget? {
        ToldSnoc(t.notes, Forgotten);
      }
      WindsUp(cfg, next, todo[1..]);
    }
  }

  lemma StoreConverges(cfg: Config, s: Site, i: nat, ok: bool)
    requires Converging(cfg, s) && Guarded(s)
    ensures Converging(cfg, After(cfg, s, Store(i, ok)))
  {
    hide Told, ExecSlice, CleanTodo;
    if i < |s.makers| && s.makers[i].pc.Made? && ok {
      var m := s.makers[i];
      ToldSnoc(s.slice.notes, Stored(FirstStatus(m.kind)));
      if s.poll.Busy? {
        StoredWhileWinding(cfg, s.slice, m, s.poll.todo);
      }
    }
  }

  lemma TallyConverges(cfg: Config, s: Site, i: nat)
    requires Converging(cfg, s)
    ensures Converging(cfg, After(cfg, s, Tally(i)))
  {
    hide Told, ExecSlice;
    if i < |s.makers| && s.makers[i].pc.Written? {
      var t := After(cfg, s, Tally(i)).slice;
      ToldSnoc(s.slice.notes, Counted(s.makers[i].kind, 1));
      if s.poll.Busy? {
        ExecAlike(cfg, s.slice, t, s.poll.todo);
      }
    }
  }

  /** The poll comes to rest: nothing is left to do, or only a flush that takes nothing out. */
  lemma RestConverges(cfg: Config, s: Site)
    requires Converging(cfg, s) && s.poll.Busy?
    requires s.poll.todo == [] || NothingDue(cfg, s.slice, s.poll.todo)
    ensures Converging(cfg, s.(poll := Resting))
  {
    hide Told, ExecSlice, Agrees;
    if s.poll.todo == [] {
      NoActs(cfg, s.slice);
    } else {
      NothingDueSkips(cfg, s.slice, s.poll.todo);
    }
    if s.slice.row.None? {
      AbsentAgrees(s.slice);
    }
  }

  lemma AbsentAgrees(s: Slice)
    requires s.row.None? && s.pending.None?
    ensures Agrees(s)
  {
  }

  lemma StepConverges(cfg: Config, s: Site)
    requires Converging(cfg, s) && s.poll.Busy? && s.poll.todo != []
    ensures Converging(cfg, s.(slice := StepSlice(cfg, s.slice, s.poll.todo[0]), poll := Busy(s.poll.todo[1..])))
  {
    hide Told, ExecSlice, Agrees;
    var todo := s.poll.todo;
    assert todo == [todo[0]] + todo[1..];
    ExecSliceCons(cfg, s.slice, todo[0], todo[1..]);
  }

  lemma AdvanceConverges(cfg: Config, s: Site)
    requires Converging(cfg, s)
    ensures Converging(cfg, After(cfg, s, Advance))
  {
    hide Converging;
    if s.poll.Busy? {
      if s.poll.todo == [] || NothingDue(cfg, s.slice, s.poll.todo) {
        RestConverges(cfg, s);
      } else {
        StepConverges(cfg, s);
      }
    }
  }

  lemma ReadConverges(cfg: Config, s: Site)
    requires Converging(cfg, s)
    ensures Converging(cfg, After(cfg, s, Read))
  {
    hide Told, ExecSlice, Program, Polled;
    if s.poll.Listed? {
      ProgramOrderly(cfg, s.slice.row, s.poll.view, s.slice.id);
      ProgramPolls(cfg, s.slice, s.poll.view);
      PolledAgrees(cfg, s.slice, s.poll.view);
    }
  }

  lemma {:induction false} ConvergesThroughout(cfg: Config, s: Site, es: seq<Happening>)
    requires Converging(cfg, s) && Guarded(s) && AllLone(cfg, s, es)
    ensures Converging(cfg, AfterAll(cfg, s, es))
  {
    hide Guarded, Lone;
    if es != [] {
      var init, e := es[..|es| - 1], es[|es| - 1];
      ConvergesThroughout(cfg, s, init);
      GuardedThroughout(cfg, s, init);
      var t := AfterAll(cfg, s, init);
      match e {
        case Store(i, ok) => StoreConverges(cfg, t, i, ok);
        case Tally(i) => TallyConverges(cfg, t, i);
        case Advance => AdvanceConverges(cfg, t);
        case Read => ReadConverges(cfg, t);
        case _ => OthersConverge(cfg, t, e);
      }
    }
  }

  lemma OthersConverge(cfg: Config, s: Site, e: Happening)
    requires Converging(cfg, s) && !e.Store? && !e.Tally? && !e.Advance? && !e.Read?
    ensures Converging(cfg, After(cfg, s, e))
  {
    hide Told, ExecSlice;
  }

  /** The atomic step on the shared state that a happening makes, if any. */
  function ActOf(cfg: Config, s: Site, e: Happening): seq<Act> {
    match e
    case Store(i, ok) => if i < |s.makers| && s.makers[i].pc.Made? && ok then [Inserting(s.makers[i])] else []
    case Tally(i) => if i < |s.makers| && s.makers[i].pc.Written? then [Count(s.makers[i].kind, 1)] else []
    case Advance =>
      if s.poll.Busy? && s.poll.todo != [] && !NothingDue(cfg, s.slice, s.poll.todo) then [s.poll.todo[0]] else []
    case _ => []
  }

  function ActsOf(cfg: Config, s: Site, es: seq<Happening>): seq<Act> {
    if es == [] then []
    else
      var init := es[..|es| - 1];
      ActsOf(cfg, s, init) + ActOf(cfg, AfterAll(cfg, s, init), es[|es| - 1])
  }

  lemma HappeningActs(cfg: Config, s: Site, e: Happening, first: Slice, acts: seq<Act>)
    requires s.slice == ExecSlice(cfg, first, acts)
    ensures After(cfg, s, e).slice == ExecSlice(cfg, first, acts + ActOf(cfg, s, e))
  {
    hide ExecSlice;
    var act := ActOf(cfg, s, e);
    assert acts + [] == acts;
    if act != [] {
      ExecSliceLast(cfg, first, acts, act[0]);
    }
  }

  lemma {:induction false} HappeningsAct(cfg: Config, s: Site, es: seq<Happening>)
    ensures AfterAll(cfg, s, es).slice == ExecSlice(cfg, s.slice, ActsOf(cfg, s, es))
  {
    hide After, ActOf;
    if es != [] {
      var init := es[..|es| - 1];
      HappeningsAct(cfg, s, init);
      HappeningActs(cfg, AfterAll(cfg, s, init), es[|es| - 1], s.slice, ActsOf(cfg, s, init));
    }
  }

  /** The id starts in this world, idle and agreeing; its steps in `tasks` are those of `es`, ending between polls. */
  ghost predicate Plays(cfg: Config, w: World, tasks: seq<Task>, id: string, s: Site, es: seq<Happening>) {
    && s.slice == SliceOf(w, id) && Idle(s) && Agrees(s.slice) && s.slice.held.None? && AllLone(cfg, s, es)
    && AfterAll(cfg, s, es).poll.Resting? && Mine(tasks, id) == ActsOf(cfg, s, es)
  }

  /**
   Subscriber agreement in the whole shared state, at the grain of single steps, with requests that span
   polls or fail: whatever the interleaving, as long as one creation of an id is in flight at a time, once
   the poll rests every stored status is what was last told or exactly what is pending.
  */
  lemma AgreementAtRest(cfg: Config, w: World, tasks: seq<Task>, sites: string -> Site,
                        plays: string -> seq<Happening>)
    requires forall id :: Plays(cfg, w, tasks, id, sites(id), plays(id))
    ensures forall id :: Agrees(SliceOf(Exec(cfg, w, tasks), id))
  {
    forall id
      ensures Agrees(SliceOf(Exec(cfg, w, tasks), id))
    {
      var s, es := sites(id), plays(id);
      assert Plays(cfg, w, tasks, id, s, es);
      hide Exec, Mine, AfterAll, AllLone, ExecSlice, ActsOf, Told, Plays;
      HappeningsAct(cfg, s, es);
      Locality(cfg, w, tasks, id);
      ConvergesThroughout(cfg, s, es);
    }
  }

  lemma {:induction false} ActsOfSplit(cfg: Config, s: Site, a: seq<Happening>, b: seq<Happening>)
    ensures ActsOf(cfg, s, a + b) == ActsOf(cfg, s, a) + ActsOf(cfg, AfterAll(cfg, s, a), b)
  {
    hide ActOf, AfterAll;
    if b == [] {
      assert a + b == a;
    } else {
      assert (a + b)[..|a + b| - 1] == a + b[..|b| - 1];
      ActsOfSplit(cfg, s, a, b[..|b| - 1]);
      AfterAllSplit(cfg, s, a, b[..|b| - 1]);
    }
  }

  lemma ActsOfOne(cfg: Config, s: Site, e: Happening)
    ensures ActsOf(cfg, s, [e]) == ActOf(cfg, s, e) && ActsOf(cfg, s, []) == []
  {
    assert [e][..0] == [];
  }

  lemma {:induction false} RestingActs(cfg: Config, s: Site, n: nat)
    requires s.poll.Resting?
    ensures ActsOf(cfg, s, Advances(n)) == []
  {
    hide ActsOf, AfterAll;
    ActsOfOne(cfg, s, Advance);
    if n > 0 {
      ActsOfSplit(cfg, s, [Advance], Advances(n - 1));
      AfterOne(cfg, s, Advance);
      RestingActs(cfg, s, n - 1);
    }
  }

  lemma {:induction false} ProgramActs(cfg: Config, s: Site)
    requires s.poll.Busy?
    ensures ActsOf(cfg, s, Advances(|s.poll.todo| + 1)) == Effective(cfg, s.slice, s.poll.todo)
    decreases |TodoOf(s.poll)|
  {
    hide ActsOf, AfterAll;
    var todo := s.poll.todo;
    var t := After(cfg, s, Advance);
    ActsOfSplit(cfg, s, [Advance], Advances(|todo|));
    ActsOfOne(cfg, s, Advance);
    AfterOne(cfg, s, Advance);
    if t.poll.Busy? {
      ProgramActs(cfg, t);
    } else {
      RestingActs(cfg, t, |todo|);
    }
  }

  /** Every legal poll of a world at rest and in agreement is such a run, for every id. */
  lemma LegalPollPlays(cfg: Config, w: World, view: View, order: Order, id: string)
    returns (s: Site, es: seq<Happening>)
    requires LegalPoll(cfg, w, view, order) && Agreement(w)
    ensures Plays(cfg, w, PollTasks(view, order), id, s, es)
  {
    hide LegalPoll, PollTasks, Mine, ActsOf, AfterAll, Effective, Program, PollSteps, AllLone, Agrees, ExecSlice;
    SliceParts(w, id);
    s := Site(SliceOf(w, id), [], if view.vms.Some? then view.vms.value.Keys else {}, Resting);
    var s1 := After(cfg, s, Begin(view));
    var s2 := After(cfg, s1, Read);
    var a := [Begin(view)] + [Read];
    var b := Advances(|s2.poll.todo| + 1);
    MinePoll(cfg, w, view, order, id);
    ProgramIsPoll(cfg, s.slice, view);
    AfterOne(cfg, s, Begin(view));
    AfterOne(cfg, s1, Read);
    AfterAllSplit(cfg, s, [Begin(view)], [Read]);
    AfterAllSplit(cfg, s, a, b);
    ProgramAdvances(cfg, s2);
    ActsOfOne(cfg, s, Begin(view));
    ActsOfOne(cfg, s1, Read);
    ActsOfSplit(cfg, s, [Begin(view)], [Read]);
    ActsOfSplit(cfg, s, a, b);
    ProgramActs(cfg, s2);
    es := a + b;
    NobodyElse(cfg, s, es);
  }

  /** Without requests there is no second one. */
  lemma {:induction false} NobodyElse(cfg: Config, s: Site, es: seq<Happening>)
    requires s.makers == []
    ensures AllLone(cfg, s, es) && AfterAll(cfg, s, es).makers == []
  {
    hide Program;
    if es != [] {
      NobodyElse(cfg, s, es[..|es| - 1]);
      hide AfterAll;
    }
  }
}
