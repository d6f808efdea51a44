/** The list endpoints: page tokens as text, and a page of resources decorated with what kweb knows. */
module Listing {
  import opened Resource
  import opened StoreModel
  import opened Paging
  import opened Decimal
  import EntryJson
  import Store

  const DEFAULT_PAGE_SIZE := 50

  // ---------- Page tokens ----------

  /** Where a request's token makes the page start; None for a token that is refused. */
  function StartOf(token: string): Option<nat> {
    if token == "" then Some(0)
    else
      var v := Atoi(token);
      if v.Some? && v.value >= 0 then Some(v.value) else None
  }

  /** Every token the endpoint hands out is accepted again and resumes where it says. */
  lemma TokenResumes(n: nat)
    requires n <= MAX_INT
    ensures Itoa(n) != "" && StartOf(Itoa(n)) == Some(n)
  {
    ItoaDigits(n);
    assert IsDigit(Itoa(n)[0]);
  }

  /** Which tokens are accepted: decimal numbers, signed or not, that are not negative and fit in 64 bits. */
  lemma TokensAccepted(n: nat, s: string)
    ensures StartOf("") == Some(0)
    ensures n <= 9_223_372_036_854_775_807 ==> StartOf(Itoa(n)) == Some(n) && StartOf("+" + Itoa(n)) == Some(n)
    ensures n > 9_223_372_036_854_775_807 ==> StartOf(Itoa(n)) == None
    ensures n > 0 ==> StartOf("-" + Itoa(n)) == None
    ensures AllDigits(s) && s != [] ==> StartOf("0" + s) == StartOf(s)
    ensures (exists i :: 0 < i < |s| && !('0' <= s[i] <= '9')) ==> StartOf(s) == None
    ensures |s| == 1 && !('0' <= s[0] <= '9') ==> StartOf(s) == None
  {
    AtoiSigned(n);
    ItoaDigits(n);
    if AllDigits(s) && s != [] {
      LeadingZero(s);
    }
    AtoiRefuses(s);
  }

  /** A token handed out by a page never exceeds the listing, so it is always representable. */
  lemma TokenInRange(list: seq<Entry>, start: nat, size: nat)
    ensures Page(list, start, size).1.Some? ==> Page(list, start, size).1.value < |list|
  {
  }

  function SizeOf(maxPageSize: int): nat {
    if maxPageSize > 0 then maxPageSize else DEFAULT_PAGE_SIZE
  }

  function TokenOf(next: Option<nat>): string {
    if next.None? then "" else Itoa(next.value)
  }

  // ---------- The endpoints ----------

  datatype KwebVm = KwebVm(name: string, ip: string, user: string)
  datatype KwebCluster = KwebCluster(name: string, version: string)

  /** kweb's answer to a listing; errors other than "unreachable" only cost the decoration. */
  datatype KwebListing<+T> = Listed(items: seq<T>) | Unreachable | OtherError

  datatype VmItem = VmItem(id: string, status: string, name: string, ip: Option<string>, sshUser: Option<string>)
  datatype ClusterItem = ClusterItem(id: string, status: string, name: string, version: Option<string>)

  /** A page with its next token, empty on the last page, or a refusal. */
  datatype Response<+T> = Results(items: seq<T>, nextToken: string) | Refusal(code: int)

  function TrimPrefix(name: string): string {
    if DCM_PREFIX <= name then name[|DCM_PREFIX|..] else name
  }

  function Given(s: string): Option<string> {
    if s == "" then None else Some(s)
  }

  function VmByName(vms: seq<KwebVm>): map<string, KwebVm> {
    if vms == [] then map[] else VmByName(vms[..|vms| - 1])[vms[|vms| - 1].name := vms[|vms| - 1]]
  }

  function ClusterByName(cls: seq<KwebCluster>): map<string, KwebCluster> {
    if cls == [] then map[] else ClusterByName(cls[..|cls| - 1])[cls[|cls| - 1].name := cls[|cls| - 1]]
  }

  function ShowVm(e: Entry, info: map<string, KwebVm>): VmItem {
    if e.kcliName in info then
      VmItem(e.id, e.status, TrimPrefix(e.kcliName), Given(info[e.kcliName].ip), Given(info[e.kcliName].user))
    else VmItem(e.id, e.status, TrimPrefix(e.kcliName), None, None)
  }

  function ShowCluster(e: Entry, info: map<string, KwebCluster>): ClusterItem {
    ClusterItem(e.id, e.status, TrimPrefix(e.kcliName),
                if e.kcliName in info then Given(info[e.kcliName].version) else None)
  }

  function ShowVms(es: seq<Entry>, info: map<string, KwebVm>): seq<VmItem> {
    seq(|es|, i requires 0 <= i < |es| => ShowVm(es[i], info))
  }

  function ShowClusters(es: seq<Entry>, info: map<string, KwebCluster>): seq<ClusterItem> {
    seq(|es|, i requires 0 <= i < |es| => ShowCluster(es[i], info))
  }

  /** What the VM list endpoint must answer, given the rows in their unique order. */
  function AnswerVms(ordered: seq<Entry>, token: string, maxPageSize: int, storeOk: bool,
                     kweb: KwebListing<KwebVm>)
    : Response<VmItem>
  {
    var start := StartOf(token);
    if start.None? then Refusal(400)
    else if !storeOk then Refusal(500)
    else if kweb.Unreachable? then Refusal(502)
    else
      var (page, next) := Page(ordered, start.value, SizeOf(maxPageSize));
      Results(ShowVms(page, VmByName(if kweb.Listed? then kweb.items else [])), TokenOf(next))
  }

  function AnswerClusters(ordered: seq<Entry>, token: string, maxPageSize: int, storeOk: bool,
                          kweb: KwebListing<KwebCluster>)
    : Response<ClusterItem>
  {
    var start := StartOf(token);
    if start.None? then Refusal(400)
    else if !storeOk then Refusal(500)
    else if kweb.Unreachable? then Refusal(502)
    else
      var (page, next) := Page(ordered, start.value, SizeOf(maxPageSize));
      Results(ShowClusters(page, ClusterByName(if kweb.Listed? then kweb.items else [])), TokenOf(next))
  }

  // ---------- What a page holds ----------

  /** The last of kweb's items with a name is the one that counts. */
  ghost predicate LastVm(items: seq<KwebVm>, k: int, name: string) {
    0 <= k < |items| && items[k].name == name && forall j :: k < j < |items| ==> items[j].name != name
  }

  ghost predicate LastCluster(items: seq<KwebCluster>, k: int, name: string) {
    0 <= k < |items| && items[k].name == name && forall j :: k < j < |items| ==> items[j].name != name
  }

  /** A row shown: its id, status and name without the prefix, and the address and user kweb last gives for it. */
  ghost predicate VmShown(e: Entry, items: seq<KwebVm>, v: VmItem) {
    && v.id == e.id && v.status == e.status
    && (if "dcm-" <= e.kcliName then e.kcliName == "dcm-" + v.name else e.kcliName == v.name)
    && (forall k :: LastVm(items, k, e.kcliName) ==>
          && v.ip == (if |items[k].ip| > 0 then Some(items[k].ip) else None)
          && v.sshUser == (if |items[k].user| > 0 then Some(items[k].user) else None))
    && ((forall k :: 0 <= k < |items| ==> items[k].name != e.kcliName) ==> v.ip == None && v.sshUser == None)
  }

  ghost predicate ClusterShown(e: Entry, items: seq<KwebCluster>, c: ClusterItem) {
    && c.id == e.id && c.status == e.status
    && (if "dcm-" <= e.kcliName then e.kcliName == "dcm-" + c.name else e.kcliName == c.name)
    && (forall k :: LastCluster(items, k, e.kcliName) ==>
          c.version == if |items[k].version| > 0 then Some(items[k].version) else None)
    && ((forall k :: 0 <= k < |items| ==> items[k].name != e.kcliName) ==> c.version == None)
  }

  /** How many rows a page from `start` on holds, 50 at most unless the request says otherwise. */
  function PageLength(total: nat, start: nat, maxPageSize: int): nat {
    var size := if maxPageSize > 0 then maxPageSize else 50;
    if total <= start then 0 else if total - start <= size then total - start else size
  }

  function NextToken(total: nat, start: nat, maxPageSize: int): string {
    var size := if maxPageSize > 0 then maxPageSize else 50;
    if start + size < total then Itoa(start + size) else ""
  }

  /** What the VM list endpoint must answer, given the rows in their order. */
  ghost predicate VmPage(r: Response<VmItem>, ordered: seq<Entry>, token: string, maxPageSize: int, storeOk: bool,
                         kweb: KwebListing<KwebVm>)
  {
    var start := StartOf(token);
    if start.None? then r == Refusal(400)
    else if !storeOk then r == Refusal(500)
    else if kweb.Unreachable? then r == Refusal(502)
    else
      && r.Results? && |r.items| == PageLength(|ordered|, start.value, maxPageSize)
      && r.nextToken == NextToken(|ordered|, start.value, maxPageSize)
      && forall i :: 0 <= i < |r.items| ==>
           VmShown(ordered[start.value + i], if kweb.Listed? then kweb.items else [], r.items[i])
  }

  ghost predicate ClusterPage(r: Response<ClusterItem>, ordered: seq<Entry>, token: string, maxPageSize: int,
                              storeOk: bool, kweb: KwebListing<KwebCluster>)
  {
    var start := StartOf(token);
    if start.None? then r == Refusal(400)
    else if !storeOk then r == Refusal(500)
    else if kweb.Unreachable? then r == Refusal(502)
    else
      && r.Results? && |r.items| == PageLength(|ordered|, start.value, maxPageSize)
      && r.nextToken == NextToken(|ordered|, start.value, maxPageSize)
      && forall i :: 0 <= i < |r.items| ==>
           ClusterShown(ordered[start.value + i], if kweb.Listed? then kweb.items else [], r.items[i])
  }

  lemma {:induction false} VmByNameSays(items: seq<KwebVm>, name: string)
    ensures name in VmByName(items) ==> exists k :: 0 <= k < |items| && items[k].name == name
    ensures forall k :: LastVm(items, k, name) ==> name in VmByName(items) && VmByName(items)[name] == items[k]
  {
    if items != [] {
      var init := items[..|items| - 1];
      VmByNameSays(init, name);
      assert items[|items| - 1].name == name ==> LastVm(items, |items| - 1, name);
      forall k | LastVm(items, k, name)
        ensures name in VmByName(items) && VmByName(items)[name] == items[k]
      {
        if k < |items| - 1 {
          assert LastVm(init, k, name);
        }
      }
      if k :| 0 <= k < |init| && init[k].name == name {
        assert items[k].name == name;
      }
    }
  }

  lemma {:induction false} ClusterByNameSays(items: seq<KwebCluster>, name: string)
    ensures name in ClusterByName(items) ==> exists k :: 0 <= k < |items| && items[k].name == name
    ensures forall k :: LastCluster(items, k, name) ==>
              name in ClusterByName(items) && ClusterByName(items)[name] == items[k]
  {
    if items != [] {
      var init := items[..|items| - 1];
      ClusterByNameSays(init, name);
      assert items[|items| - 1].name == name ==> LastCluster(items, |items| - 1, name);
      forall k | LastCluster(items, k, name)
        ensures name in ClusterByName(items) && ClusterByName(items)[name] == items[k]
      {
        if k < |items| - 1 {
          assert LastCluster(init, k, name);
        }
      }
      if k :| 0 <= k < |init| && init[k].name == name {
        assert items[k].name == name;
      }
    }
  }

  lemma PrefixTrimmed(name: string)
    ensures if "dcm-" <= name then name == "dcm-" + TrimPrefix(name) else name == TrimPrefix(name)
  {
  }

  lemma ShowsVm(e: Entry, items: seq<KwebVm>)
    ensures VmShown(e, items, ShowVm(e, VmByName(items)))
  {
    hide TrimPrefix, VmByName;
    VmByNameSays(items, e.kcliName);
    PrefixTrimmed(e.kcliName);
  }

  lemma ShowsCluster(e: Entry, items: seq<KwebCluster>)
    ensures ClusterShown(e, items, ShowCluster(e, ClusterByName(items)))
  {
    hide TrimPrefix, ClusterByName;
    ClusterByNameSays(items, e.kcliName);
    PrefixTrimmed(e.kcliName);
  }

  lemma PageSays(ordered: seq<Entry>, start: nat, maxPageSize: int)
    ensures |Page(ordered, start, SizeOf(maxPageSize)).0| == PageLength(|ordered|, start, maxPageSize)
    ensures TokenOf(Page(ordered, start, SizeOf(maxPageSize)).1) == NextToken(|ordered|, start, maxPageSize)
    ensures var page := Page(ordered, start, SizeOf(maxPageSize)).0;
            forall i :: 0 <= i < |page| ==> start + i < |ordered| && page[i] == ordered[start + i]
  {
    hide Itoa;
  }

  lemma VmAnswer(ordered: seq<Entry>, token: string, maxPageSize: int, storeOk: bool, kweb: KwebListing<KwebVm>)
    ensures VmPage(AnswerVms(ordered, token, maxPageSize, storeOk, kweb), ordered, token, maxPageSize, storeOk, kweb)
  {
    hide VmShown, ShowVm, StartOf, Page, SizeOf, PageLength, NextToken, TokenOf;
    var start := StartOf(token);
    if start.Some? {
      PageSays(ordered, start.value, maxPageSize);
      var items := if kweb.Listed? then kweb.items else [];
      var page := Page(ordered, start.value, SizeOf(maxPageSize)).0;
      forall i | 0 <= i < |page|
        ensures VmShown(page[i], items, ShowVms(page, VmByName(items))[i])
      {
        ShowsVm(page[i], items);
      }
    }
  }

  lemma ClusterAnswer(ordered: seq<Entry>, token: string, maxPageSize: int, storeOk: bool,
                      kweb: KwebListing<KwebCluster>)
    ensures ClusterPage(AnswerClusters(ordered, token, maxPageSize, storeOk, kweb), ordered, token, maxPageSize,
                        storeOk, kweb)
  {
    hide ClusterShown, ShowCluster, StartOf, Page, SizeOf, PageLength, NextToken, TokenOf;
    var start := StartOf(token);
    if start.Some? {
      PageSays(ordered, start.value, maxPageSize);
      var items := if kweb.Listed? then kweb.items else [];
      var page := Page(ordered, start.value, SizeOf(maxPageSize)).0;
      forall i | 0 <= i < |page|
        ensures ClusterShown(page[i], items, ShowClusters(page, ClusterByName(items))[i])
      {
        ShowsCluster(page[i], items);
      }
    }
  }

  lemma VmAnswers(token: string, maxPageSize: int, storeOk: bool, kweb: KwebListing<KwebVm>)
    ensures forall ordered ::
              VmPage(AnswerVms(ordered, token, maxPageSize, storeOk, kweb), ordered, token, maxPageSize, storeOk, kweb)
  {
    hide VmPage, AnswerVms;
    forall ordered
      ensures VmPage(AnswerVms(ordered, token, maxPageSize, storeOk, kweb), ordered, token, maxPageSize, storeOk, kweb)
    {
      VmAnswer(ordered, token, maxPageSize, storeOk, kweb);
    }
  }

  lemma ClusterAnswers(token: string, maxPageSize: int, storeOk: bool, kweb: KwebListing<KwebCluster>)
    ensures forall ordered ::
              ClusterPage(AnswerClusters(ordered, token, maxPageSize, storeOk, kweb), ordered, token, maxPageSize,
                          storeOk, kweb)
  {
    hide ClusterPage, AnswerClusters;
    forall ordered
      ensures ClusterPage(AnswerClusters(ordered, token, maxPageSize, storeOk, kweb), ordered, token, maxPageSize,
                          storeOk, kweb)
    {
      ClusterAnswer(ordered, token, maxPageSize, storeOk, kweb);
    }
  }

  /** The rows of a kind in listing order; whatever order the store iterates in, this is the one. */
  method Ordered(store: Store.Store, kind: string) returns (ordered: seq<Entry>)
    requires store.Valid()
    ensures Sorted(ordered) && Lists(ordered, OfKind(store.State().rows, kind))
    ensures forall other | Sorted(other) && Lists(other, OfKind(store.State().rows, kind)) :: other == ordered
  {
    hide EntryJson.Decode, EntryJson.Encode, Sort, Lists, Sorted;
    ghost var rows := OfKind(store.State().rows, kind);
    var entries := store.List(kind);
    SortLists(entries, rows);
    ordered := Sort(entries);
    forall other | Sorted(other) && Lists(other, rows)
      ensures other == ordered
    {
      SortedUnique(other, ordered, rows);
    }
  }

  method ListVMs(store: Store.Store, token: string, maxPageSize: int, storeOk: bool, kweb: KwebListing<KwebVm>)
    returns (response: Response<VmItem>)
    requires store.Valid()
    ensures forall ordered | Sorted(ordered) && Lists(ordered, OfKind(store.State().rows, VM)) ::
              response == AnswerVms(ordered, token, maxPageSize, storeOk, kweb)
              && VmPage(response, ordered, token, maxPageSize, storeOk, kweb)
  {
    hide VmPage;
    VmAnswers(token, maxPageSize, storeOk, kweb);
    hide EntryJson.Decode, EntryJson.Encode, Lists, Sorted, OfKind, ShowVm, Itoa, Atoi, StartOf;
    var size := if maxPageSize > 0 then maxPageSize else DEFAULT_PAGE_SIZE;
    var start := StartOf(token);
    if start.None? {
      return Refusal(400);
    }
    var startIdx := start.value;
    if !storeOk {
      return Refusal(500);
    }
    var ordered := Ordered(store, VM);
    if kweb.Unreachable? {
      return Refusal(502);
    }
    var vms := if kweb.Listed? then kweb.items else [];
    var kwebMap: map<string, KwebVm> := map[];
    for i := 0 to |vms|
      invariant kwebMap == VmByName(vms[..i])
    {
      kwebMap := kwebMap[vms[i].name := vms[i]];
      assert vms[..i + 1][..i] == vms[..i];
    }
    assert vms[..|vms|] == vms;
    var results: seq<VmItem> := [];
    for i := 0 to |ordered|
      invariant results == ShowVms(ordered[..i], kwebMap)
    {
      results := results + [ShowVm(ordered[i], kwebMap)];
      assert results == ShowVms(ordered[..i + 1], kwebMap);
    }
    assert ordered[..|ordered|] == ordered;
    if startIdx > |results| {
      startIdx := |results|;
    }
    results := results[startIdx..];
    assert results == ShowVms(ordered[startIdx..], kwebMap);
    var nextToken := "";
    if |results| > size {
      nextToken := Itoa(startIdx + size);
      results := results[..size];
      assert results == ShowVms(ordered[startIdx..][..size], kwebMap);
    }
    response := Results(results, nextToken);
  }

  method ListClusters(store: Store.Store, token: string, maxPageSize: int, storeOk: bool,
                      kweb: KwebListing<KwebCluster>)
    returns (response: Response<ClusterItem>)
    requires store.Valid()
    ensures forall ordered | Sorted(ordered) && Lists(ordered, OfKind(store.State().rows, CLUSTER)) ::
              response == AnswerClusters(ordered, token, maxPageSize, storeOk, kweb)
              && ClusterPage(response, ordered, token, maxPageSize, storeOk, kweb)
  {
    hide ClusterPage;
    ClusterAnswers(token, maxPageSize, storeOk, kweb);
    hide EntryJson.Decode, EntryJson.Encode, Lists, Sorted, OfKind, ShowCluster, Itoa, Atoi, StartOf;
    var size := if maxPageSize > 0 then maxPageSize else DEFAULT_PAGE_SIZE;
    var start := StartOf(token);
    if start.None? {
      return Refusal(400);
    }
    var startIdx := start.value;
    if !storeOk {
      return Refusal(500);
    }
    var ordered := Ordered(store, CLUSTER);
    if kweb.Unreachable? {
      return Refusal(502);
    }
    var cls := if kweb.Listed? then kweb.items else [];
    var kwebMap: map<string, KwebCluster> := map[];
    for i := 0 to |cls|
      invariant kwebMap == ClusterByName(cls[..i])
    {
      kwebMap := kwebMap[cls[i].name := cls[i]];
      assert cls[..i + 1][..i] == cls[..i];
    }
    assert cls[..|cls|] == cls;
    var results: seq<ClusterItem> := [];
    for i := 0 to |ordered|
      invariant results == ShowClusters(ordered[..i], kwebMap)
    {
      results := results + [ShowCluster(ordered[i], kwebMap)];
      assert results == ShowClusters(ordered[..i + 1], kwebMap);
    }
    assert ordered[..|ordered|] == ordered;
    if startIdx > |results| {
      startIdx := |results|;
    }
    results := results[startIdx..];
    assert results == ShowClusters(ordered[startIdx..], kwebMap);
    var nextToken := "";
    if |results| > size {
      nextToken := Itoa(startIdx + size);
      results := results[..size];
      assert results == ShowClusters(ordered[startIdx..][..size], kwebMap);
    }
    response := Results(results, nextToken);
  }
}
