/** Listing in pages: the order, the page tokens, and walks over a changing store. */
module Paging {
  import opened Resource
  import opened StoreModel

  // ---------- The order ----------

  /** Go's string order. */
  predicate StringLess(a: string, b: string) {
    if b == [] then false
    else if a == [] then true
    else if a[0] != b[0] then a[0] < b[0]
    else StringLess(a[1..], b[1..])
  }

  /** The sort's comparator: newest first, then by id. */
  predicate Before(a: Entry, b: Entry) {
    if a.createdAt == b.createdAt then StringLess(a.id, b.id) else a.createdAt > b.createdAt
  }

  lemma {:induction false} StringTrichotomy(a: string, b: string)
    ensures a == b || StringLess(a, b) || StringLess(b, a)
    ensures !(StringLess(a, b) && StringLess(b, a))
    ensures !StringLess(a, a)
  {
    if a != [] && b != [] && a[0] == b[0] {
      StringTrichotomy(a[1..], b[1..]);
      assert a == [a[0]] + a[1..] && b == [b[0]] + b[1..];
    }
    StringIrreflexive(a);
  }

  lemma {:induction false} StringIrreflexive(a: string)
    ensures !StringLess(a, a)
  {
    if a != [] {
      StringIrreflexive(a[1..]);
    }
  }

  lemma {:induction false} StringTransitive(a: string, b: string, c: string)
    requires StringLess(a, b) && StringLess(b, c)
    ensures StringLess(a, c)
  {
    if a != [] && a[0] == b[0] == c[0] {
      StringTransitive(a[1..], b[1..], c[1..]);
    }
  }

  /** The comparator is a strict total order on entries with distinct ids. */
  lemma ComparatorTotal(a: Entry, b: Entry, c: Entry)
    ensures !Before(a, a)
    ensures !(Before(a, b) && Before(b, a))
    ensures a.id != b.id ==> Before(a, b) || Before(b, a)
    ensures Before(a, b) && Before(b, c) ==> Before(a, c)
  {
    StringTrichotomy(a.id, b.id);
    StringIrreflexive(a.id);
    if Before(a, b) && Before(b, c) && a.createdAt == b.createdAt == c.createdAt {
      StringTransitive(a.id, b.id, c.id);
    }
  }

  /** Newer entries come first; of the same age, the one whose id is smaller at the first difference. */
  lemma NewestFirst(a: Entry, b: Entry, p: string, x: char, y: char, q: string, r: string)
    ensures a.createdAt > b.createdAt ==> Before(a, b) && !Before(b, a)
    ensures a.createdAt == b.createdAt && a.id == p + [x] + q && b.id == p + [y] + r && x < y ==> Before(a, b)
    ensures a.createdAt == b.createdAt && a.id == p && b.id == p + [x] + q ==> Before(a, b)
  {
    SmallerString(p, x, y, q, r);
  }

  lemma {:induction false} SmallerString(p: string, x: char, y: char, q: string, r: string)
    ensures x < y ==> StringLess(p + [x] + q, p + [y] + r)
    ensures StringLess(p, p + [x] + q)
  {
    if p != [] {
      SmallerString(p[1..], x, y, q, r);
      assert (p + [x] + q)[1..] == p[1..] + [x] + q && (p + [y] + r)[1..] == p[1..] + [y] + r;
    }
  }

  ghost predicate Sorted(es: seq<Entry>) {
    forall i, j :: 0 <= i < j < |es| ==> Before(es[i], es[j])
  }

  function Insert(e: Entry, es: seq<Entry>): seq<Entry> {
    if es == [] || Before(e, es[0]) then [e] + es else [es[0]] + Insert(e, es[1..])
  }

  function Sort(es: seq<Entry>): seq<Entry> {
    if es == [] then [] else Insert(es[0], Sort(es[1..]))
  }

  lemma {:induction false} InsertKeeps(e: Entry, es: seq<Entry>)
    ensures multiset(Insert(e, es)) == multiset(es) + multiset{e}
  {
    if es != [] && !Before(e, es[0]) {
      InsertKeeps(e, es[1..]);
      assert es == [es[0]] + es[1..];
    }
  }

  /** What precedes the head of a sorted list precedes all of it. */
  lemma BeforeAll(e: Entry, es: seq<Entry>, i: int)
    requires Sorted(es) && 0 <= i < |es| && Before(e, es[0])
    ensures Before(e, es[i])
  {
    ComparatorTotal(e, es[0], es[i]);
  }

  lemma InsertedAmong(e: Entry, es: seq<Entry>, i: int)
    requires 0 <= i < |Insert(e, es)|
    ensures Insert(e, es)[i] == e || Insert(e, es)[i] in es
  {
    InsertKeeps(e, es);
    assert Insert(e, es)[i] in multiset(Insert(e, es));
  }

  lemma SortedCons(e: Entry, es: seq<Entry>)
    requires Sorted(es) && forall i :: 0 <= i < |es| ==> Before(e, es[i])
    ensures Sorted([e] + es)
  {
  }

  lemma {:induction false} InsertSorts(e: Entry, es: seq<Entry>)
    requires Sorted(es) && forall i :: 0 <= i < |es| ==> es[i].id != e.id
    ensures Sorted(Insert(e, es))
  {
    hide Before;
    if es == [] || Before(e, es[0]) {
      forall i | 0 <= i < |es|
        ensures Before(e, es[i])
      {
        BeforeAll(e, es, i);
      }
      SortedCons(e, es);
    } else {
      var tail := Insert(e, es[1..]);
      InsertSorts(e, es[1..]);
      ComparatorTotal(e, es[0], es[0]);
      forall i | 0 <= i < |tail|
        ensures Before(es[0], tail[i])
      {
        InsertedAmong(e, es[1..], i);
      }
      SortedCons(es[0], tail);
    }
  }

  lemma {:induction false} SortCorrect(es: seq<Entry>)
    requires forall i, j :: 0 <= i < j < |es| ==> es[i].id != es[j].id
    ensures Sorted(Sort(es)) && multiset(Sort(es)) == multiset(es)
  {
    hide Insert, Sorted;
    if es != [] {
      var rest := Sort(es[1..]);
      SortCorrect(es[1..]);
      InsertKeeps(es[0], rest);
      assert es == [es[0]] + es[1..];
      forall i | 0 <= i < |rest|
        ensures rest[i].id != es[0].id
      {
        assert rest[i] in multiset(es[1..]);
        assert rest[i] in es[1..];
      }
      InsertSorts(es[0], rest);
    } else {
      NothingSorted();
    }
  }

  lemma NothingSorted()
    ensures Sorted([])
  {
  }

  // ---------- Positions ----------

  /** Same place in the order: status and name may differ. */
  predicate SameKey(a: Entry, b: Entry) {
    a.id == b.id && a.createdAt == b.createdAt
  }

  /** Every entry of `a` is still there in `b`. */
  ghost predicate Within(a: seq<Entry>, b: seq<Entry>) {
    forall i :: 0 <= i < |a| ==> HasKey(b, a[i])
  }

  ghost predicate HasKey(es: seq<Entry>, e: Entry) {
    exists j :: 0 <= j < |es| && SameKey(e, es[j])
  }

  /** Adding entries never moves one forward in the order. */
  lemma {:induction false} NeverForward(a: seq<Entry>, b: seq<Entry>, i: int, j: int)
    requires Sorted(a) && Sorted(b) && Within(a, b)
    requires 0 <= i < |a| && 0 <= j < |b| && SameKey(a[i], b[j])
    ensures i <= j
    decreases i
  {
    if i > 0 {
      assert HasKey(b, a[i - 1]);
      var k :| 0 <= k < |b| && SameKey(a[i - 1], b[k]);
      NeverForward(a, b, i - 1, k);
      assert Before(a[i - 1], a[i]);
      assert Before(b[k], b[j]);
      ComparatorTotal(b[k], b[j], b[j]);
      ComparatorTotal(b[j], b[k], b[k]);
    }
  }

  lemma SortedAgree(a: seq<Entry>, b: seq<Entry>, rows: map<string, Entry>, i: int)
    requires Sorted(a) && Sorted(b) && Lists(a, rows) && Lists(b, rows) && 0 <= i < |a|
    ensures i < |b| && a[i] == b[i]
  {
    ListsWithin(a, b, rows);
    ListsWithin(b, a, rows);
    assert a[i] in b;
    var j :| 0 <= j < |b| && b[j] == a[i];
    assert SameKey(a[i], b[j]) && SameKey(b[j], a[i]);
    NeverForward(a, b, i, j);
    NeverForward(b, a, j, i);
  }

  /** Two sorted lists of the same rows are the same list. */
  lemma SortedUnique(a: seq<Entry>, b: seq<Entry>, rows: map<string, Entry>)
    requires Sorted(a) && Sorted(b) && Lists(a, rows) && Lists(b, rows)
    ensures a == b
  {
    if a != [] {
      SortedAgree(a, b, rows, |a| - 1);
    }
    if b != [] {
      SortedAgree(b, a, rows, |b| - 1);
    }
    forall i | 0 <= i < |a|
      ensures a[i] == b[i]
    {
      SortedAgree(a, b, rows, i);
    }
  }

  lemma ListsWithin(a: seq<Entry>, b: seq<Entry>, rows: map<string, Entry>)
    requires Lists(a, rows) && Lists(b, rows)
    ensures Within(a, b) && forall i :: 0 <= i < |a| ==> a[i] in b
  {
  }

  /** Rows that keep their creation time stay within the sorted listing when other rows come or go. */
  lemma RowsWithin(a: seq<Entry>, b: seq<Entry>, before: map<string, Entry>, after: map<string, Entry>)
    requires Lists(a, before) && Lists(b, after) && Keyed(before) && Keyed(after)
    requires forall id :: id in before ==> id in after && after[id].createdAt == before[id].createdAt
    ensures Within(a, b)
  {
  }

  lemma SortLists(es: seq<Entry>, rows: map<string, Entry>)
    requires Lists(es, rows)
    ensures Sorted(Sort(es)) && Lists(Sort(es), rows)
  {
    SortCorrect(es);
    var out := Sort(es);
    forall i | 0 <= i < |out|
      ensures out[i].id in rows && rows[out[i].id] == out[i]
    {
      assert out[i] in multiset(es);
    }
    forall i, j | 0 <= i < j < |out|
      ensures out[i].id != out[j].id
    {
      ComparatorTotal(out[i], out[j], out[j]);
      assert Before(out[i], out[j]);
      StringIrreflexive(out[i].id);
    }
    forall id | id in rows
      ensures rows[id] in out
    {
      assert rows[id] in multiset(es);
    }
  }

  // ---------- Pages ----------

  /** One page of an ordered list and, when more follows, where the next page starts. */
  function Page(list: seq<Entry>, start: nat, size: nat): (seq<Entry>, Option<nat>) {
    var from := if start > |list| then |list| else start;
    var rest := list[from..];
    if |rest| > size then (rest[..size], Some(from + size)) else (rest, None)
  }

  /** The pages of a walk that follows its tokens, fetch k seeing `lists[k]`. */
  function Walk(lists: seq<seq<Entry>>, start: nat, size: nat): seq<seq<Entry>> {
    if lists == [] then []
    else
      var (results, next) := Page(lists[0], start, size);
      [results] + if next.Some? then Walk(lists[1..], next.value, size) else []
  }

  /** The walk came to a page without a token. */
  predicate Finished(lists: seq<seq<Entry>>, start: nat, size: nat) {
    lists != [] &&
    (var next := Page(lists[0], start, size).1;
     next.None? || Finished(lists[1..], next.value, size))
  }

  function Flatten(pages: seq<seq<Entry>>): seq<Entry> {
    if pages == [] then [] else pages[0] + Flatten(pages[1..])
  }

  lemma WalkUnfolds(lists: seq<seq<Entry>>, start: nat, size: nat)
    requires lists != []
    ensures var (results, next) := Page(lists[0], start, size);
            && (next.None? ==> Finished(lists, start, size) && Flatten(Walk(lists, start, size)) == results)
            && (next.Some? ==>
                  && Finished(lists, start, size) == Finished(lists[1..], next.value, size)
                  && Flatten(Walk(lists, start, size)) == results + Flatten(Walk(lists[1..], next.value, size)))
  {
    hide Page;
    var (results, next) := Page(lists[0], start, size);
    if next.Some? {
      var more := Walk(lists[1..], next.value, size);
      assert ([results] + more)[1..] == more;
    } else {
      assert [results] + [] == [results] && [results][1..] == [];
    }
  }

  /** Over an unchanging list the walk ends, within the expected number of pages, having returned exactly that list. */
  lemma {:induction false} WalkComplete(list: seq<Entry>, n: nat, start: nat, size: nat)
    requires size >= 1 && n >= 1 && start <= |list| <= start + n * size
    ensures var lists := seq(n, (_: int) => list);
            Finished(lists, start, size) && Flatten(Walk(lists, start, size)) == list[start..]
    decreases n
  {
    hide Walk, Finished, Flatten;
    var lists := seq(n, (_: int) => list);
    assert lists[1..] == seq(n - 1, (_: int) => list);
    WalkUnfolds(lists, start, size);
    var (results, next) := Page(list, start, size);
    if next.Some? {
      LastPage(n, size);
      WalkComplete(list, n - 1, start + size, size);
      assert list[start..] == results + list[start + size..];
    }
  }

  lemma LastPage(n: nat, size: nat)
    requires n >= 1
    ensures n * size == (n - 1) * size + size && (n == 1 ==> n * size == size)
  {
  }

  ghost predicate AllSorted(lists: seq<seq<Entry>>) {
    forall k :: 0 <= k < |lists| ==> Sorted(lists[k])
  }

  /** Between fetches entries may appear but not vanish. */
  ghost predicate OnlyCreations(lists: seq<seq<Entry>>) {
    forall k :: 0 <= k < |lists| - 1 ==> Within(lists[k], lists[k + 1])
  }

  /** Between fetches entries may vanish but not appear. */
  ghost predicate OnlyDeletions(lists: seq<seq<Entry>>) {
    forall k :: 0 <= k < |lists| - 1 ==> Within(lists[k + 1], lists[k])
  }

  lemma TailLists(lists: seq<seq<Entry>>)
    requires lists != []
    ensures AllSorted(lists) ==> AllSorted(lists[1..])
    ensures OnlyCreations(lists) ==> OnlyCreations(lists[1..])
    ensures OnlyDeletions(lists) ==> OnlyDeletions(lists[1..])
  {
  }

  ghost predicate Returned(pages: seq<seq<Entry>>, e: Entry) {
    exists p, q :: 0 <= p < |pages| && 0 <= q < |pages[p]| && SameKey(pages[p][q], e)
  }

  lemma WalkHead(lists: seq<seq<Entry>>, start: nat, size: nat)
    requires lists != []
    ensures var (results, next) := Page(lists[0], start, size);
            && Walk(lists, start, size) == [results] + (if next.Some? then Walk(lists[1..], next.value, size) else [])
            && (Finished(lists, start, size) ==> next.None? || Finished(lists[1..], next.value, size))
  {
    hide Page;
  }

  lemma FinishedNotEmpty(lists: seq<seq<Entry>>, start: nat, size: nat)
    requires Finished(lists, start, size)
    ensures lists != []
  {
  }

  lemma ReturnedFirst(first: seq<Entry>, more: seq<seq<Entry>>, q: int)
    requires 0 <= q < |first|
    ensures Returned([first] + more, first[q])
  {
    var pages := [first] + more;
    assert SameKey(pages[0][q], first[q]);
  }

  lemma ReturnedLater(first: seq<Entry>, more: seq<seq<Entry>>, a: Entry, b: Entry)
    requires Returned(more, a) && SameKey(b, a)
    ensures Returned([first] + more, b)
  {
    var p, q :| 0 <= p < |more| && 0 <= q < |more[p]| && SameKey(more[p][q], a);
    var pages := [first] + more;
    assert SameKey(pages[p + 1][q], b);
  }

  /** At the next fetch an entry stands where it stood, or later. */
  lemma StandsLater(lists: seq<seq<Entry>>, i: int) returns (j: int)
    requires |lists| > 1 && AllSorted(lists) && OnlyCreations(lists) && 0 <= i < |lists[0]|
    ensures i <= j < |lists[1]| && SameKey(lists[0][i], lists[1][j])
  {
    assert Within(lists[0], lists[1]);
    assert HasKey(lists[1], lists[0][i]);
    j :| 0 <= j < |lists[1]| && SameKey(lists[0][i], lists[1][j]);
    NeverForward(lists[0], lists[1], i, j);
  }

  /** An entry at or past the start of a finished walk is returned, as long as entries are only created. */
  lemma {:induction false} NothingSkipped(lists: seq<seq<Entry>>, start: nat, size: nat, i: int)
    requires lists != [] && AllSorted(lists) && OnlyCreations(lists) && Finished(lists, start, size)
    requires start <= i < |lists[0]|
    ensures Returned(Walk(lists, start, size), lists[0][i])
    decreases |lists|
  {
    WalkHead(lists, start, size);
    hide Returned, SameKey, Walk, Finished, AllSorted, OnlyCreations;
    var (results, next) := Page(lists[0], start, size);
    var rest := lists[1..];
    var more := if next.Some? then Walk(rest, next.value, size) else [];
    if i < start + |results| {
      assert results[i - start] == lists[0][i];
      ReturnedFirst(results, more, i - start);
    } else {
      assert next == Some(start + size);
      FinishedNotEmpty(rest, start + size, size);
      assert rest[0] == lists[1];
      var j := StandsLater(lists, i);
      TailLists(lists);
      NothingSkipped(rest, start + size, size, j);
      ReturnedLater(results, more, rest[0][j], lists[0][i]);
    }
  }

  /** So a finished walk never misses an entry that was there when it began. */
  lemma WalkMissesNothing(lists: seq<seq<Entry>>, size: nat)
    requires lists != [] && AllSorted(lists) && OnlyCreations(lists) && Finished(lists, 0, size)
    ensures forall i :: 0 <= i < |lists[0]| ==> Returned(Walk(lists, 0, size), lists[0][i])
  {
    forall i | 0 <= i < |lists[0]|
      ensures Returned(Walk(lists, 0, size), lists[0][i])
    {
      NothingSkipped(lists, 0, size, i);
    }
  }

  /** While entries only vanish, nothing a later page returns stood before the walk's current start. */
  lemma {:induction false} LaterPagesFromLater(lists: seq<seq<Entry>>, start: nat, size: nat, p: int, q: int)
    returns (i: int)
    requires lists != [] && AllSorted(lists) && OnlyDeletions(lists)
    requires 0 <= p < |Walk(lists, start, size)| && 0 <= q < |Walk(lists, start, size)[p]|
    ensures start <= i < |lists[0]| && SameKey(Walk(lists, start, size)[p][q], lists[0][i])
    ensures p > 0 ==> start + |Walk(lists, start, size)[0]| <= i
    decreases |lists|
  {
    var (results, next) := Page(lists[0], start, size);
    var pages := Walk(lists, start, size);
    if p == 0 {
      i := start + q;
    } else {
      var rest := lists[1..];
      assert pages[p] == Walk(rest, next.value, size)[p - 1];
      TailLists(lists);
      var j := LaterPagesFromLater(rest, next.value, size, p - 1, q);
      assert Within(lists[1], lists[0]);
      assert rest[0] == lists[1];
      assert HasKey(lists[0], lists[1][j]);
      i :| 0 <= i < |lists[0]| && SameKey(lists[1][j], lists[0][i]);
      NeverForward(lists[1], lists[0], j, i);
    }
  }

  /** While entries only vanish between fetches, no entry is returned on two pages. */
  lemma {:induction false} NothingRepeated(lists: seq<seq<Entry>>, start: nat, size: nat,
                                           p: int, q: int, p': int, q': int)
    requires AllSorted(lists) && OnlyDeletions(lists)
    requires 0 <= p < p' < |Walk(lists, start, size)|
    requires 0 <= q < |Walk(lists, start, size)[p]| && 0 <= q' < |Walk(lists, start, size)[p']|
    ensures !SameKey(Walk(lists, start, size)[p][q], Walk(lists, start, size)[p'][q'])
    decreases |lists|
  {
    var (results, next) := Page(lists[0], start, size);
    var pages := Walk(lists, start, size);
    var rest := lists[1..];
    if p > 0 {
      assert pages[p] == Walk(rest, next.value, size)[p - 1] && pages[p'] == Walk(rest, next.value, size)[p' - 1];
      TailLists(lists);
      NothingRepeated(rest, next.value, size, p - 1, q, p' - 1, q');
    } else {
      var i := LaterPagesFromLater(lists, start, size, p', q');
      assert pages[0] == results && results[q] == lists[0][start + q];
      assert Before(lists[0][start + q], lists[0][i]);
      StringIrreflexive(lists[0][i].id);
    }
  }

  /** Each guarantee needs its premise: a deletion between fetches can skip an entry, a creation can repeat one. */
  lemma OffsetsDrift(a: Entry, b: Entry, c: Entry)
    requires c.createdAt > a.createdAt > b.createdAt
    ensures Walk([[a, b], [b]], 0, 1) == [[a], []] && Finished([[a, b], [b]], 0, 1)
    ensures Walk([[a, b], [c, a, b]], 0, 1) == [[a], [a]]
    ensures AllSorted([[a, b], [b]]) && OnlyDeletions([[a, b], [b]])
    ensures AllSorted([[a, b], [c, a, b]]) && OnlyCreations([[a, b], [c, a, b]])
  {
    var deleted, created := [[a, b], [b]], [[a, b], [c, a, b]];
    assert deleted[1..] == [[b]] && created[1..] == [[c, a, b]];
    assert [a, b][0..] == [a, b] && [a, b][..1] == [a];
    assert Page([a, b], 0, 1) == ([a], Some(1));
    assert [b][1..] == [] && Page([b], 1, 1) == ([], None);
    assert [c, a, b][1..] == [a, b] && Page([c, a, b], 1, 1) == ([a], Some(2));
    assert [[b]][1..] == [] && [[c, a, b]][1..] == [];
    assert Walk([[b]], 1, 1) == [[]];
    assert Walk([[c, a, b]], 1, 1) == [[a]] + Walk([], 2, 1) == [[a]];
    assert SameKey(b, deleted[0][1]);
    assert SameKey(a, created[1][1]) && SameKey(b, created[1][2]);
  }
}
