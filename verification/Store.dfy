/** The bbolt store: rows kept as JSON text, each method one transaction. */
module Store {
  import opened Resource
  import opened StoreModel
  import opened EntryJson

  function KindTag(kind: string): Option<string> {
    if kind == VM then Some(TypeTag(VM))
    else if kind == CLUSTER then Some(TypeTag(CLUSTER))
    else None
  }

  /** The pre-filter of a listing: text without the wanted type's tag is skipped unread. */
  predicate Passes(text: string, kind: string) {
    var tag := KindTag(kind);
    tag.None? || Contains(text, tag.value)
  }

  /** The pre-filter never skips a wanted row, and for the two known types passes nothing else. */
  lemma PassesExact(tc: TimeCodec, e: Entry, kind: string)
    requires Faithful(tc)
    ensures Passes(Encode(tc, e), kind) <==> e.kind == kind || (kind != VM && kind != CLUSTER)
  {
    hide Encode, Contains;
    if kind == VM || kind == CLUSTER {
      assert Plain(VM) && Plain(CLUSTER);
      PrefilterExact(tc, e, kind);
    }
  }

  class Store {
    const tc: TimeCodec
    var resources: map<string, string>
    var nameIndex: map<string, string>

    /** Every stored text is the encoding of a row with the id it is stored under. */
    ghost predicate Valid()
      reads this
    {
      && Faithful(tc)
      && forall id :: id in resources ==> Readable(tc, id, resources[id])
    }

    static ghost predicate Readable(tc: TimeCodec, id: string, text: string) {
      && Decode(tc, text).Some?
      && Decode(tc, text).value.id == id
      && Encode(tc, Decode(tc, text).value) == text
    }

    /** The two buckets with every row decoded. */
    ghost function State(): (s: StoreState)
      requires Valid()
      reads this
      ensures Keyed(s.rows)
    {
      StoreState(map id | id in resources :: Decode(tc, resources[id]).value, nameIndex)
    }

    constructor (tc: TimeCodec)
      requires Faithful(tc)
      ensures Valid() && State() == StoreState(map[], map[]) && this.tc == tc
    {
      this.tc := tc;
      resources, nameIndex := map[], map[];
    }

    method Put(entry: Entry)
      requires Valid()
      modifies this
      ensures Valid() && State() == StoreModel.Put(old(State()), entry)
    {
      hide Decode, Encode;
      RoundTrip(tc, entry);
      resources := resources[entry.id := Encode(tc, entry)];
      nameIndex := nameIndex[entry.kcliName := entry.id];
    }

    method Get(id: string) returns (entry: Option<Entry>)
      requires Valid()
      ensures entry == if id in State().rows then Some(State().rows[id]) else None
    {
      if id !in resources {
        return None;
      }
      entry := Decode(tc, resources[id]);
    }

    method Delete(id: string)
      requires Valid()
      modifies this
      ensures Valid() && State() == StoreModel.Delete(old(State()), id)
    {
      hide Decode, Encode;
      if id in resources {
        var entry := Decode(tc, resources[id]);
        if entry.Some? {
          nameIndex := nameIndex - {entry.value.kcliName};
        }
      }
      resources := resources - {id};
    }

    method UpdateStatus(id: string, newStatus: string) returns (found: bool)
      requires Valid()
      modifies this
      ensures Valid() && State() == StoreModel.UpdateStatus(old(State()), id, newStatus)
      ensures found == (id in old(State()).rows)
    {
      hide Decode, Encode;
      if id !in resources {
        return false;
      }
      var entry := Decode(tc, resources[id]).value.(status := newStatus);
      RoundTrip(tc, entry);
      resources := resources[id := Encode(tc, entry)];
      found := true;
    }

    method FindByKcliName(name: string) returns (entry: Option<Entry>)
      requires Valid()
      ensures entry == Find(State(), name)
    {
      if name !in nameIndex || nameIndex[name] !in resources {
        return None;
      }
      entry := Decode(tc, resources[nameIndex[name]]);
    }

    /** Listing over raw text with the pre-filter: exactly the rows of that type, each once. */
    method List(kind: string) returns (entries: seq<Entry>)
      requires Valid()
      ensures Lists(entries, OfKind(State().rows, kind))
      ensures EachOnce(entries)
      ensures forall e: Entry :: e in entries <==> Lookup(State().rows, e.id) == Some(e) && e.kind == kind
    {
      hide Decode, Encode, Passes, OfKind, Lists, Visited, EachOnce, Lookup;
      ghost var rows := State().rows;
      VisitBounds(rows);
      NothingToList(kind, "");
      entries := [];
      var todo := resources.Keys;
      while todo != {}
        invariant todo <= rows.Keys == resources.Keys
        invariant Lists(entries, OfKind(Visited(rows, todo), kind))
      {
        var id :| id in todo;
        VisitKind(rows, todo, id, kind);
        PassesExact(tc, rows[id], kind);
        if Passes(resources[id], kind) {
          var entry := Decode(tc, resources[id]).value;
          if entry.kind == kind {
            ListsGrows(entries, OfKind(Visited(rows, todo), kind), entry);
            entries := entries + [entry];
          }
        }
        todo := todo - {id};
      }
      KindSays(entries, rows, kind);
    }

    method ListByStatus(kind: string, status: string) returns (entries: seq<Entry>)
      requires Valid()
      ensures Lists(entries, WithStatus(OfKind(State().rows, kind), status))
      ensures EachOnce(entries)
      ensures forall e: Entry :: e in entries <==>
                Lookup(State().rows, e.id) == Some(e) && e.kind == kind && e.status == status
    {
      hide Decode, Encode, Passes, OfKind, WithStatus, Lists, Visited, EachOnce, Lookup;
      ghost var rows := State().rows;
      VisitBounds(rows);
      NothingToList(kind, status);
      entries := [];
      var todo := resources.Keys;
      while todo != {}
        invariant todo <= rows.Keys == resources.Keys
        invariant Lists(entries, WithStatus(OfKind(Visited(rows, todo), kind), status))
      {
        var id :| id in todo;
        VisitKindStatus(rows, todo, id, kind, status);
        PassesExact(tc, rows[id], kind);
        if Passes(resources[id], kind) {
          var entry := Decode(tc, resources[id]).value;
          if entry.kind == kind && entry.status == status {
            ListsGrows(entries, WithStatus(OfKind(Visited(rows, todo), kind), status), entry);
            entries := entries + [entry];
          }
        }
        todo := todo - {id};
      }
      KindStatusSays(entries, rows, kind, status);
    }

    method ListAll() returns (entries: seq<Entry>)
      requires Valid()
      ensures Lists(entries, State().rows)
      ensures EachOnce(entries)
      ensures forall e: Entry :: e in entries <==> Lookup(State().rows, e.id) == Some(e)
    {
      hide Decode, Encode, Lists, Visited, EachOnce, Lookup;
      ghost var rows := State().rows;
      VisitBounds(rows);
      NothingToList("", "");
      entries := [];
      var todo := resources.Keys;
      while todo != {}
        invariant todo <= rows.Keys == resources.Keys
        invariant Lists(entries, Visited(rows, todo))
      {
        var id :| id in todo;
        var entry := Decode(tc, resources[id]).value;
        VisitAny(rows, todo, id);
        ListsGrows(entries, Visited(rows, todo), entry);
        entries := entries + [entry];
        todo := todo - {id};
      }
      ListsSay(entries, rows);
    }
  }
}
