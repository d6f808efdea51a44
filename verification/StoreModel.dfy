/** The state store as a value: its two buckets, what each transaction does, and when they agree. */
module StoreModel {
  import opened Resource

  /** `rows` is the resources bucket, `names` the name_index bucket (kcli name to id). */
  datatype StoreState = StoreState(rows: map<string, Entry>, names: map<string, string>)

  function Put(s: StoreState, e: Entry): StoreState {
    StoreState(s.rows[e.id := e], s.names[e.kcliName := e.id])
  }

  function Delete(s: StoreState, id: string): StoreState {
    if id in s.rows then StoreState(s.rows - {id}, s.names - {s.rows[id].kcliName}) else s
  }

  function UpdateStatus(s: StoreState, id: string, status: string): StoreState {
    if id in s.rows then s.(rows := s.rows[id := s.rows[id].(status := status)]) else s
  }

  function Find(s: StoreState, name: string): Option<Entry> {
    if name in s.names && s.names[name] in s.rows then Some(s.rows[s.names[name]]) else None
  }

  function OfKind(rows: map<string, Entry>, kind: string): map<string, Entry> {
    map id | id in rows && rows[id].kind == kind :: rows[id]
  }

  function WithStatus(rows: map<string, Entry>, status: string): map<string, Entry> {
    map id | id in rows && rows[id].status == status :: rows[id]
  }

  /** `es` holds every row of `rows` exactly once, in some order. */
  ghost predicate Lists(es: seq<Entry>, rows: map<string, Entry>) {
    && (forall i :: 0 <= i < |es| ==> es[i].id in rows && rows[es[i].id] == es[i])
    && (forall i, j :: 0 <= i < j < |es| ==> es[i].id != es[j].id)
    && (forall id :: id in rows ==> rows[id] in es)
  }

  /** Every row is stored under its own id. */
  ghost predicate Keyed(rows: map<string, Entry>) {
    forall id :: id in rows ==> rows[id].id == id
  }

  // ---------- Listings, by their entries ----------

  ghost predicate EachOnce(es: seq<Entry>) {
    forall i, j :: 0 <= i < j < |es| ==> es[i].id != es[j].id
  }

  lemma ListsSay(es: seq<Entry>, rows: map<string, Entry>)
    requires Keyed(rows) && Lists(es, rows)
    ensures EachOnce(es) && forall e: Entry :: e in es <==> Lookup(rows, e.id) == Some(e)
  {
    forall e: Entry | Lookup(rows, e.id) == Some(e)
      ensures e in es
    {
      assert rows[e.id] in es;
    }
  }

  lemma KindSays(es: seq<Entry>, rows: map<string, Entry>, kind: string)
    requires Keyed(rows) && Lists(es, OfKind(rows, kind))
    ensures EachOnce(es) && forall e: Entry :: e in es <==> Lookup(rows, e.id) == Some(e) && e.kind == kind
  {
    hide Lists, EachOnce;
    ListsSay(es, OfKind(rows, kind));
  }

  lemma KindStatusSays(es: seq<Entry>, rows: map<string, Entry>, kind: string, status: string)
    requires Keyed(rows) && Lists(es, WithStatus(OfKind(rows, kind), status))
    ensures EachOnce(es)
    ensures forall e: Entry :: e in es <==> Lookup(rows, e.id) == Some(e) && e.kind == kind && e.status == status
  {
    hide Lists, EachOnce;
    ListsSay(es, WithStatus(OfKind(rows, kind), status));
  }

  // ---------- The name index ----------

  /** The index is exactly the inverse of id to kcli name. */
  ghost predicate Exact(s: StoreState) {
    && (forall id :: id in s.rows ==> s.rows[id].kcliName in s.names && s.names[s.rows[id].kcliName] == id)
    && (forall name :: name in s.names ==> s.names[name] in s.rows && s.rows[s.names[name]].kcliName == name)
  }

  /** Putting `e` neither renames a live id nor takes the name of another live row. */
  ghost predicate Admissible(s: StoreState, e: Entry) {
    && (e.id in s.rows ==> s.rows[e.id].kcliName == e.kcliName)
    && (forall id :: id in s.rows && s.rows[id].kcliName == e.kcliName ==> id == e.id)
  }

  /** One Put keeps the index exact exactly when it is admissible. */
  lemma PutKeepsExact(s: StoreState, e: Entry)
    requires Exact(s)
    ensures Exact(Put(s, e)) <==> Admissible(s, e)
  {
    var t := Put(s, e);
    if Exact(t) {
      forall id | id in s.rows && s.rows[id].kcliName == e.kcliName
        ensures id == e.id
      {
        assert id in t.rows;
      }
      // Were a live id renamed, its old name would still lead to it.
      assert e.id in s.rows ==> s.rows[e.id].kcliName in t.names;
    }
    if Admissible(s, e) {
      forall id | id in t.rows
        ensures t.rows[id].kcliName in t.names && t.names[t.rows[id].kcliName] == id
      {
        if id != e.id {
          assert id in s.rows;
        }
      }
      forall name | name in t.names
        ensures t.names[name] in t.rows && t.rows[t.names[name]].kcliName == name
      {
        if name != e.kcliName {
          assert name in s.names;
        }
      }
    }
  }

  lemma DeleteKeepsExact(s: StoreState, id: string)
    requires Exact(s)
    ensures Exact(Delete(s, id))
  {
  }

  datatype Op = PutOp(entry: Entry) | DeleteOp(id: string) | StatusOp(id: string, status: string)

  function Perform(s: StoreState, op: Op): StoreState {
    match op
    case PutOp(e) => Put(s, e)
    case DeleteOp(id) => Delete(s, id)
    case StatusOp(id, status) => UpdateStatus(s, id, status)
  }

  /** The index is exact now and after every transaction of `ops`. */
  ghost predicate ExactThroughout(s: StoreState, ops: seq<Op>)
    decreases |ops|
  {
    Exact(s) && (ops == [] || ExactThroughout(Perform(s, ops[0]), ops[1..]))
  }

  ghost predicate Disciplined(s: StoreState, ops: seq<Op>)
    decreases |ops|
  {
    ops == [] || ((ops[0].PutOp? ==> Admissible(s, ops[0].entry)) && Disciplined(Perform(s, ops[0]), ops[1..]))
  }

  /** Over every history, the index stays exact exactly when every Put in it is admissible. */
  lemma {:induction false} IndexExactIff(s: StoreState, ops: seq<Op>)
    requires Exact(s)
    ensures ExactThroughout(s, ops) <==> Disciplined(s, ops)
    decreases |ops|
  {
    if ops != [] {
      var t := Perform(s, ops[0]);
      match ops[0] {
        case PutOp(e) => PutKeepsExact(s, e);
        case DeleteOp(id) => DeleteKeepsExact(s, id);
        case StatusOp(_, _) =>
      }
      if Exact(t) {
        IndexExactIff(t, ops[1..]);
      }
    }
  }

  /** With an exact index, the lookup finds the row a linear scan finds, and nothing when the scan finds nothing. */
  lemma FindIsScan(s: StoreState, name: string)
    requires Exact(s)
    ensures forall e :: Find(s, name) == Some(e) <==> exists id :: id in s.rows && s.rows[id] == e && e.kcliName == name
  {
  }

  /** A VM and a cluster may share a kcli name; deleting one then hides the other from the lookup. */
  lemma SharedNameHidesRow(vm: Entry, cluster: Entry)
    requires vm.id != cluster.id && vm.kcliName == cluster.kcliName
    ensures var s := Delete(Put(Put(StoreState(map[], map[]), vm), cluster), vm.id);
            cluster.id in s.rows && s.rows[cluster.id] == cluster && Find(s, cluster.kcliName) == None
  {
  }

  // ---------- Listings ----------

  lemma ListsGrows(es: seq<Entry>, rows: map<string, Entry>, e: Entry)
    requires Lists(es, rows) && e.id !in rows
    ensures Lists(es + [e], rows[e.id := e])
  {
  }

  /** What is left of `rows` once the ids still to visit are set aside. */
  function Visited(rows: map<string, Entry>, todo: set<string>): map<string, Entry> {
    map id | id in rows && id !in todo :: rows[id]
  }

  /** A scan starts with nothing visited and ends with everything visited. */
  lemma VisitBounds(rows: map<string, Entry>)
    ensures Visited(rows, rows.Keys) == map[] && Visited(rows, {}) == rows
  {
  }

  /** Visiting one more row extends a filtered view by that row or leaves it alone. */
  lemma VisitKind(rows: map<string, Entry>, todo: set<string>, id: string, kind: string)
    requires id in rows && id in todo
    ensures id !in OfKind(Visited(rows, todo), kind)
    ensures OfKind(Visited(rows, todo - {id}), kind)
            == if rows[id].kind == kind then OfKind(Visited(rows, todo), kind)[id := rows[id]]
               else OfKind(Visited(rows, todo), kind)
  {
  }

  lemma VisitKindStatus(rows: map<string, Entry>, todo: set<string>, id: string, kind: string, status: string)
    requires id in rows && id in todo
    ensures id !in WithStatus(OfKind(Visited(rows, todo), kind), status)
    ensures WithStatus(OfKind(Visited(rows, todo - {id}), kind), status)
            == if rows[id].kind == kind && rows[id].status == status
               then WithStatus(OfKind(Visited(rows, todo), kind), status)[id := rows[id]]
               else WithStatus(OfKind(Visited(rows, todo), kind), status)
  {
  }

  lemma VisitAny(rows: map<string, Entry>, todo: set<string>, id: string)
    requires id in rows && id in todo
    ensures id !in Visited(rows, todo)
    ensures Visited(rows, todo - {id}) == Visited(rows, todo)[id := rows[id]]
  {
  }

  lemma NothingToList(kind: string, status: string)
    ensures Lists([], map[]) && OfKind(map[], kind) == map[] && WithStatus(map[], status) == map[]
  {
  }
}
