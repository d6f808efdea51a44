/** Orphan detection: listed VMs that carry the provider's prefix but have no row. */
module Orphans {
  import opened Resource

  datatype VmInfo = VmInfo(name: string, status: string)

  predicate Ours(name: string) {
    DCM_PREFIX <= name
  }

  function Names(rows: seq<Entry>): set<string> {
    set e | e in rows :: e.kcliName
  }

  function OrphansOf(vms: seq<VmInfo>, rows: seq<Entry>): set<string> {
    set vm | vm in vms && Ours(vm.name) && vm.name !in Names(rows) :: vm.name
  }

  /** One poll's input to the detection: no listing, or the listed VMs with the rows read alongside. */
  datatype Sighting = Unseen | Seen(vms: seq<VmInfo>, rows: seq<Entry>)

  datatype Tally = Tally(seen: set<string>, counter: nat)

  function Detect(t: Tally, s: Sighting): Tally {
    match s
    case Unseen => t
    case Seen(vms, rows) =>
      var current := OrphansOf(vms, rows);
      Tally(current, t.counter + |current - t.seen|)
  }

  /** A name that some listed VM has, that carries the provider's prefix, and that no row claims. */
  ghost predicate Orphaned(name: string, vms: seq<VmInfo>, rows: seq<Entry>) {
    && (exists i :: 0 <= i < |vms| && vms[i].name == name)
    && |name| >= 4 && name[..4] == "dcm-"
    && (forall i :: 0 <= i < |rows| ==> rows[i].kcliName != name)
  }

  /** What one detection does to the tally: the marks become the orphans, and the new ones are counted. */
  ghost predicate Noticed(t: Tally, s: Sighting, after: Tally) {
    match s
    case Unseen => after == t
    case Seen(vms, rows) =>
      && (forall name :: name in after.seen <==> Orphaned(name, vms, rows))
      && after.counter == t.counter + |set name | name in after.seen && name !in t.seen|
  }

  lemma DetectSays(t: Tally, s: Sighting)
    ensures Noticed(t, s, Detect(t, s))
  {
    if s.Seen? {
      forall name
        ensures name in OrphansOf(s.vms, s.rows) <==> Orphaned(name, s.vms, s.rows)
      {
        NamesSay(s.rows, name);
        assert DCM_PREFIX <= name <==> |name| >= 4 && name[..4] == "dcm-";
      }
      var after := Detect(t, s);
      assert (set name | name in after.seen && name !in t.seen) == after.seen - t.seen;
    }
  }

  lemma NamesSay(rows: seq<Entry>, name: string)
    ensures name in Names(rows) <==> exists i :: 0 <= i < |rows| && rows[i].kcliName == name
  {
  }

  function DetectAll(t: Tally, history: seq<Sighting>): Tally {
    if history == [] then t else Detect(DetectAll(t, history[..|history| - 1]), history[|history| - 1])
  }

  /** Whether `name` is an orphan in poll i that was not one at the last listing before it. */
  predicate Appears(name: string, history: seq<Sighting>, i: int)
    requires 0 <= i < |history|
  {
    && history[i].Seen? && name in OrphansOf(history[i].vms, history[i].rows)
    && name !in LastOrphans(history[..i])
  }

  /** The orphans of the last listing, none before the first. */
  function LastOrphans(history: seq<Sighting>): set<string> {
    if history == [] then {}
    else
      var s := history[|history| - 1];
      if s.Seen? then OrphansOf(s.vms, s.rows) else LastOrphans(history[..|history| - 1])
  }

  /** How many polls saw `name` newly orphaned. */
  function Appearances(name: string, history: seq<Sighting>): nat {
    if history == [] then 0
    else
      Appearances(name, history[..|history| - 1]) + if Appears(name, history, |history| - 1) then 1 else 0
  }

  /** The sum of all appearances over a list of names. */
  function Total(names: seq<string>, history: seq<Sighting>): nat {
    if names == [] then 0 else Total(names[..|names| - 1], history) + Appearances(names[|names| - 1], history)
  }

  lemma {:induction false} TallySeen(history: seq<Sighting>)
    ensures DetectAll(Tally({}, 0), history).seen == LastOrphans(history)
  {
    if history != [] {
      TallySeen(history[..|history| - 1]);
    }
  }

  function Counted(names: seq<string>, s: set<string>): nat {
    if names == [] then 0 else Counted(names[..|names| - 1], s) + if names[|names| - 1] in s then 1 else 0
  }

  lemma {:induction false} CountedIsSize(names: seq<string>, s: set<string>)
    requires Distinct(names)
    ensures Counted(names, s) == |set n | n in names && n in s|
  {
    var found := set n | n in names && n in s;
    if names != [] {
      var init, last := names[..|names| - 1], names[|names| - 1];
      var before := set n | n in init && n in s;
      CountedIsSize(init, s);
      assert names == init + [last];
      assert last !in before;
      if last in s {
        assert found == before + {last};
      } else {
        assert found == before;
      }
    } else {
      assert found == {};
    }
  }

  lemma {:induction false} TotalStep(names: seq<string>, history: seq<Sighting>, s: Sighting)
    ensures Total(names, history + [s])
            == Total(names, history)
               + if s.Seen? then Counted(names, OrphansOf(s.vms, s.rows) - LastOrphans(history)) else 0
  {
    if names != [] {
      TotalStep(names[..|names| - 1], history, s);
      assert (history + [s])[..|history|] == history;
    }
  }

  lemma {:induction false} TotalEmpty(names: seq<string>)
    ensures Total(names, []) == 0
  {
    if names != [] {
      TotalEmpty(names[..|names| - 1]);
    }
  }

  ghost predicate Covers(names: seq<string>, history: seq<Sighting>) {
    forall i :: 0 <= i < |history| && history[i].Seen? ==>
      forall n :: n in OrphansOf(history[i].vms, history[i].rows) ==> n in names
  }

  /**
   Orphan accounting, for every history: what is marked seen is exactly the last listing's orphans, and
   the counter is, summed over names, the number of times each name newly became an orphan.
  */
  lemma {:induction false} OrphanAccounting(names: seq<string>, history: seq<Sighting>)
    requires Distinct(names) && Covers(names, history)
    ensures DetectAll(Tally({}, 0), history) == Tally(LastOrphans(history), Total(names, history))
  {
    if history == [] {
      TotalEmpty(names);
    } else {
      var init, s := history[..|history| - 1], history[|history| - 1];
      assert Covers(names, init) by {
        forall i | 0 <= i < |init| && init[i].Seen?
          ensures forall n :: n in OrphansOf(init[i].vms, init[i].rows) ==> n in names
        {
          assert init[i] == history[i];
        }
      }
      OrphanAccounting(names, init);
      TotalStep(names, init, s);
      assert init + [s] == history;
      if s.Seen? {
        var added := OrphansOf(s.vms, s.rows) - LastOrphans(init);
        CountedIsSize(names, added);
        assert (set n | n in names && n in added) == added;
      }
    }
  }

  /** Repeats cost nothing: as long as the same orphans keep being listed, the counter stands still. */
  lemma {:induction false} SteadyOrphansCountOnce(t: Tally, history: seq<Sighting>)
    requires forall i :: 0 <= i < |history| && history[i].Seen? ==> OrphansOf(history[i].vms, history[i].rows) == t.seen
    ensures DetectAll(t, history) == t
  {
    if history != [] {
      SteadyOrphansCountOnce(t, history[..|history| - 1]);
      assert t.seen - t.seen == {};
    }
  }
}
