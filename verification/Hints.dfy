/** Building the kweb request: provider hints merged into the parameters, parameters into the body. */
module Hints {
  import opened Resource
  import opened Decimal

  datatype Value = Text(text: string) | Number(number: int) | Texts(texts: seq<string>) | Other(tag: int)

  /** provider_hints: absent, without a kcli entry, with one that is not an object, or with an object. */
  datatype ProviderHints = NoHints | NoKcli | NotAnObject | Kcli(entries: map<string, Value>)

  const ALLOWED: set<string> := {
    "image", "network", "pool", "numcpus", "memory", "disks", "nets", "dns", "domain", "reservedns",
    "reservehost", "start", "keys", "iso", "cloudinit", "autostart", "flavor", "storemetadata",
    "sharedfolders", "kernel", "initrd", "cmdline", "placement", "yamlinventory", "cpuhotplug",
    "memoryhotplug", "numa", "pcidevices", "tpm", "rng", "zerotier_net", "virttype", "tags",
    "ctlplanes", "workers", "version", "sdn", "network_type", "api_ip"
  }

  /** The hints that may be forwarded: allowed, not excluded, not already set. */
  function Forwarded(params: map<string, Value>, hints: ProviderHints, exclude: seq<string>): map<string, Value> {
    if !hints.Kcli? then map[]
    else map k | k in hints.entries && k in ALLOWED && k !in exclude && k !in params :: hints.entries[k]
  }

  /** What a merge leaves: everything set stays, and just the allowed, not excluded hints join it. */
  ghost predicate Merged(before: map<string, Value>, hints: ProviderHints, exclude: seq<string>,
                         after: map<string, Value>)
  {
    && (forall k :: k in before ==> k in after && after[k] == before[k])
    && (forall k :: k in after && k !in before ==>
          hints.Kcli? && k in hints.entries && k in ALLOWED && k !in exclude && after[k] == hints.entries[k])
    && (hints.Kcli? ==> forall k :: k in hints.entries && k in ALLOWED && k !in exclude ==> k in after)
  }

  lemma MergeSays(params: map<string, Value>, hints: ProviderHints, exclude: seq<string>)
    ensures Merged(params, hints, exclude, params + Forwarded(params, hints, exclude))
  {
    hide ALLOWED;
  }

  /** The keys documented as blocked, which run commands on the hypervisor or open it up. */
  function Blocked(): set<string> {
    {"cmds", "scripts", "files", "rhnregister", "networkwait", "enableroot", "rootpassword"}
  }

  lemma NoneBlockedAllowed()
    ensures forall k :: k in Blocked() ==> k !in ALLOWED
  {
    hide ALLOWED;
    CommandsNotAllowed();
    HostKeysNotAllowed();
  }

  lemma CommandsNotAllowed()
    ensures "cmds" !in ALLOWED && "scripts" !in ALLOWED && "files" !in ALLOWED
  {
  }

  lemma HostKeysNotAllowed()
    ensures "rhnregister" !in ALLOWED && "networkwait" !in ALLOWED
    ensures "enableroot" !in ALLOWED && "rootpassword" !in ALLOWED
  {
  }

  /** Of the hints to add, those already visited. */
  function VisitedHints(added: map<string, Value>, todo: set<string>): map<string, Value> {
    map k | k in added && k !in todo :: added[k]
  }

  lemma VisitHint(base: map<string, Value>, added: map<string, Value>, todo: set<string>, k: string)
    requires k in todo
    ensures var sofar := base + VisitedHints(added, todo);
            base + VisitedHints(added, todo - {k}) == if k in added then sofar[k := added[k]] else sofar
    ensures k in base + VisitedHints(added, todo) <==> k in base
  {
  }

  lemma VisitedBounds(base: map<string, Value>, added: map<string, Value>, all: set<string>)
    requires added.Keys <= all
    ensures base + VisitedHints(added, all) == base && VisitedHints(added, {}) == added
  {
  }

  class Params {
    var entries: map<string, Value>

    constructor ()
      ensures entries == map[]
    {
      entries := map[];
    }

    /** Whatever order the hints are visited in, exactly the forwardable ones are added and nothing set is changed. */
    method MergeKcliHints(hints: ProviderHints, exclude: seq<string>)
      modifies this
      ensures entries == old(entries) + Forwarded(old(entries), hints, exclude)
      ensures Merged(old(entries), hints, exclude, entries)
    {
      hide Merged;
      MergeSays(entries, hints, exclude);
      if !hints.Kcli? {
        return;
      }
      hide ALLOWED, VisitedHints;
      var m := hints.entries;
      ghost var added := Forwarded(entries, hints, exclude);
      var todo := m.Keys;
      VisitedBounds(entries, added, todo);
      while todo != {}
        invariant todo <= m.Keys && entries == old(entries) + VisitedHints(added, todo)
      {
        var k :| k in todo;
        VisitHint(old(entries), added, todo, k);
        todo := todo - {k};
        if k in exclude || k !in ALLOWED {
          continue;
        }
        if k !in entries {
          entries := entries[k := m[k]];
        }
      }
    }
  }

  /** The body of a kweb create call: two identifying fields, then every parameter over them. */
  method BuildBody(nameKey: string, name: string, typeKey: string, typ: string, params: map<string, Value>)
    returns (body: map<string, Value>)
    ensures body == map[nameKey := Text(name)][typeKey := Text(typ)] + params
  {
    body := map[nameKey := Text(name)][typeKey := Text(typ)];
    var todo := params.Keys;
    ghost var base := body;
    while todo != {}
      invariant todo <= params.Keys
      invariant body == base + (map k | k in params && k !in todo :: params[k])
    {
      var k :| k in todo;
      todo := todo - {k};
      body := body[k := params[k]];
    }
  }

  /** A finished body: the identity, under the request's own parameters, under the forwarded hints. */
  function Body(nameKey: string, name: string, typeKey: string, typ: string, own: map<string, Value>,
                hints: ProviderHints, exclude: seq<string>): map<string, Value>
  {
    map[nameKey := Text(name)][typeKey := Text(typ)] + (own + Forwarded(own, hints, exclude))
  }

  /**
   No hint displaces the identity or a parameter of the request's own, every forwardable hint arrives
   unchanged, and nothing else does.
  */
  lemma BodyContents(nameKey: string, name: string, typeKey: string, typ: string, own: map<string, Value>,
                     hints: ProviderHints, exclude: seq<string>)
    requires nameKey != typeKey && nameKey !in ALLOWED && typeKey !in ALLOWED && nameKey !in own && typeKey !in own
    ensures var body := Body(nameKey, name, typeKey, typ, own, hints, exclude);
            && nameKey in body && body[nameKey] == Text(name)
            && typeKey in body && body[typeKey] == Text(typ)
            && (forall k :: k in own ==> k in body && body[k] == own[k])
            && (forall k :: k in Forwarded(own, hints, exclude) ==> k in body && body[k] == hints.entries[k])
            && (forall k :: k in body ==>
                  k == nameKey || k == typeKey || k in own || k in Forwarded(own, hints, exclude))
  {
  }

  // ---------- Memory sizes ----------

  predicate IsSpace(c: char) {
    c in "\t\n\U{B}\U{C}\r \U{85}\U{A0}\U{1680}\U{2028}\U{2029}\U{202F}\U{205F}\U{3000}"
    || '\U{2000}' <= c <= '\U{200A}'
  }

  function TrimSpace(s: string): string
    decreases |s|
  {
    if s != [] && IsSpace(s[0]) then TrimSpace(s[1..])
    else if s != [] && IsSpace(s[|s| - 1]) then TrimSpace(s[..|s| - 1])
    else s
  }

  /** The number before a unit, and how many megabytes the unit is. */
  function SplitSize(size: string): (r: Option<(string, int)>)
    ensures r.Some? ==> r.value.1 in {1024 * 1024, 1024, 1}
  {
    if |size| < 2 then None
    else
      var number, unit := size[..|size| - 2], size[|size| - 2..];
      if unit == "TB" then Some((number, 1024 * 1024))
      else if unit == "GB" then Some((number, 1024))
      else if unit == "MB" then Some((number, 1))
      else None
  }

  /** Megabytes as the code computes them, in 64-bit arithmetic. */
  function ParseMemorySize(size: string): Option<int> {
    var parts :- SplitSize(TrimSpace(size));
    var v :- Atoi(parts.0);
    Some(if parts.1 == 1024 * 1024 then Wrap(Wrap(v * 1024) * 1024) else Wrap(v * parts.1))
  }

  /** The result is the exact number of megabytes exactly when that number fits in 64 bits. */
  lemma MemoryExactIff(size: string, number: string, factor: int, v: int)
    requires SplitSize(TrimSpace(size)) == Some((number, factor)) && Atoi(number) == Some(v)
    ensures ParseMemorySize(size) == Some(v * factor) <==> -MAX_INT - 1 <= v * factor <= MAX_INT
  {
    hide Wrap, Atoi, SplitSize, TrimSpace;
    WrapSays(v * factor);
    WrapSays(v * 1024);
    WrapSays(Wrap(v * 1024) * 1024);
  }

  /** A size in megabytes, gigabytes or terabytes is read as that many megabytes, if they fit in 64 bits. */
  lemma MemoryUnits(n: nat)
    ensures ParseMemorySize("4GB") == Some(4 * 1024)
    ensures n <= MAX_INT ==> ParseMemorySize(Itoa(n) + "MB") == Some(n)
    ensures n * 1024 <= MAX_INT ==> ParseMemorySize(Itoa(n) + "GB") == Some(n * 1024)
    ensures n * 1024 * 1024 <= MAX_INT ==> ParseMemorySize(Itoa(n) + "TB") == Some(n * 1024 * 1024)
  {
    hide Wrap, Atoi, Itoa;
    ItoaUnsigned(n);
    AtoiSigned(n);
    WrapSays(n);
    WrapSays(n * 1024);
    WrapSays(n * 1024 * 1024);
    UnitRead(Itoa(n), "MB");
    UnitRead(Itoa(n), "GB");
    UnitRead(Itoa(n), "TB");
    FourGigabytes();
  }

  lemma FourGigabytes()
    ensures ParseMemorySize("4GB") == Some(4096)
  {
    assert Itoa(4) == "4";
    AtoiSigned(4);
    UnitRead("4", "GB");
    WrapSays(4096);
  }

  /** Text that neither starts nor ends with a space splits into a number and one of the three units, or is refused. */
  lemma UnitRead(number: string, unit: string)
    requires |unit| == 2 && !IsSpace(unit[1]) && (number != [] ==> !IsSpace(number[0]))
    requires number == [] ==> !IsSpace(unit[0])
    ensures TrimSpace(number + unit) == number + unit
    ensures SplitSize(number + unit)
            == if unit == "TB" then Some((number, 1_048_576)) else if unit == "GB" then Some((number, 1024))
               else if unit == "MB" then Some((number, 1)) else None
    ensures unit != "TB" && unit != "GB" && unit != "MB" ==> ParseMemorySize(number + unit) == None
  {
    hide IsSpace;
    var s := number + unit;
    assert s[..|s| - 2] == number && s[|s| - 2..] == unit;
  }

  /** Space around a size does not count. */
  lemma {:induction false} SpaceAround(s: string, c: char)
    requires c in " \t\n\r"
    ensures ParseMemorySize([c] + s) == ParseMemorySize(s) == ParseMemorySize(s + [c])
  {
    hide SplitSize, Atoi;
    assert ([c] + s)[1..] == s;
    SpaceBehind(s, c);
  }

  lemma {:induction false} SpaceBehind(s: string, c: char)
    requires IsSpace(c)
    ensures TrimSpace(s + [c]) == TrimSpace(s)
    decreases |s|
  {
    hide IsSpace;
    var t := s + [c];
    if s == [] {
      assert t[1..] == [];
    } else if IsSpace(s[0]) {
      assert t[1..] == s[1..] + [c];
      SpaceBehind(s[1..], c);
    } else {
      assert t[..|t| - 1] == s;
    }
  }

  // ---------- The requests ----------

  const MEMORY := "parameters[memory]"
  const NUMCPUS := "parameters[numcpus]"
  const KEYS := "parameters[keys]"

  function MemoryParam(memoryMB: Option<int>): map<string, Value> {
    if memoryMB.Some? && memoryMB.value > 0 then map[MEMORY := Number(memoryMB.value)] else map[]
  }

  function CpuParam(vcpus: Option<int>): map<string, Value> {
    if vcpus.Some? then map[NUMCPUS := Number(vcpus.value)] else map[]
  }

  function KeyParam(sshKey: string): map<string, Value> {
    if sshKey != "" then map[KEYS := Texts([sshKey])] else map[]
  }

  /** The memory a request asks for, if it names a size that can be read. */
  function MemoryOf(size: Option<string>): Option<int> {
    if size.Some? then ParseMemorySize(size.value) else None
  }

  /** The parameters a VM request sets itself. */
  function VmParams(size: Option<string>, vcpus: Option<int>, sshKey: string): map<string, Value> {
    MemoryParam(MemoryOf(size)) + CpuParam(vcpus) + KeyParam(sshKey)
  }

  /** The parameters a cluster request sets itself. */
  function ClusterParams(ctlplanes: Option<int>, workers: Option<int>): map<string, Value> {
    (if ctlplanes.Some? then map["ctlplanes" := Number(ctlplanes.value)] else map[])
    + (if workers.Some? then map["workers" := Number(workers.value)] else map[])
  }

  lemma SetIsUnion(m: map<string, Value>, key: string, value: Value)
    ensures m[key := value] == m + map[key := value] && m + map[] == m
  {
  }

  method OwnVmParams(size: Option<string>, vcpus: Option<int>, sshKey: string) returns (params: Params)
    ensures fresh(params) && params.entries == VmParams(size, vcpus, sshKey)
  {
    hide MEMORY, NUMCPUS, KEYS, ParseMemorySize;
    params := new Params();
    var memoryMB := if size.Some? then ParseMemorySize(size.value) else None;
    SetIsUnion(map[], MEMORY, Number(0));
    if memoryMB.Some? && memoryMB.value > 0 {
      params.entries := params.entries[MEMORY := Number(memoryMB.value)];
    }
    ghost var memory := params.entries;
    assert memory == MemoryParam(memoryMB);
    hide MemoryParam;
    SetIsUnion(memory, NUMCPUS, Number(if vcpus.Some? then vcpus.value else 0));
    if vcpus.Some? {
      params.entries := params.entries[NUMCPUS := Number(vcpus.value)];
    }
    ghost var both := params.entries;
    assert both == memory + CpuParam(vcpus);
    hide CpuParam;
    SetIsUnion(both, KEYS, Texts([sshKey]));
    if sshKey != "" {
      params.entries := params.entries[KEYS := Texts([sshKey])];
    }
    assert params.entries == both + KeyParam(sshKey);
  }

  lemma IdentityNotAllowed()
    ensures "name" !in ALLOWED && "profile" !in ALLOWED && "cluster" !in ALLOWED && "kubetype" !in ALLOWED
    ensures "cluster_type" !in ALLOWED
  {
  }

  /** Whatever the hints say, the body kweb receives carries the resolved name and profile. */
  lemma VmIdentityKept(kcliName: string, profile: string, size: Option<string>, vcpus: Option<int>, sshKey: string,
                       hints: ProviderHints)
    ensures var own := VmParams(size, vcpus, sshKey);
            var body := Body("name", kcliName, "profile", profile, own, hints, ["profile"]);
            Lookup(body, "name") == Some(Text(kcliName)) && Lookup(body, "profile") == Some(Text(profile))
  {
    hide ALLOWED, Body;
    IdentityNotAllowed();
    var own := VmParams(size, vcpus, sshKey);
    assert own.Keys <= {MEMORY, NUMCPUS, KEYS};
    assert |"name"| == 4 && |"profile"| == 7 && |MEMORY| == 18 && |NUMCPUS| == 19 && |KEYS| == 16;
    BodyContents("name", kcliName, "profile", profile, own, hints, ["profile"]);
  }

  lemma ClusterIdentityKept(kcliName: string, kubetype: string, ctlplanes: Option<int>, workers: Option<int>,
                            hints: ProviderHints)
    ensures var body := Body("cluster", kcliName, "kubetype", kubetype, ClusterParams(ctlplanes, workers), hints,
                             ["cluster_type"]);
            Lookup(body, "cluster") == Some(Text(kcliName)) && Lookup(body, "kubetype") == Some(Text(kubetype))
  {
    hide ALLOWED, Body;
    IdentityNotAllowed();
    var own := ClusterParams(ctlplanes, workers);
    assert own.Keys <= {"ctlplanes", "workers"};
    assert "cluster"[1] == 'l' && "workers"[1] == 'o' && "kubetype"[0] == 'k';
    BodyContents("cluster", kcliName, "kubetype", kubetype, own, hints, ["cluster_type"]);
  }

  /** The body of a VM request: its own fields, and of the hints just those that are allowed. */
  ghost predicate VmRequest(body: map<string, Value>, kcliName: string, profile: string, size: Option<string>,
                            vcpus: Option<int>, sshKey: string, hints: ProviderHints)
  {
    var own := ["name", "profile", "parameters[memory]", "parameters[numcpus]", "parameters[keys]"];
    var memory := MemoryOf(size);
    && Lookup(body, "name") == Some(Text(kcliName)) && Lookup(body, "profile") == Some(Text(profile))
    && Lookup(body, "parameters[memory]")
       == (if memory.Some? && memory.value > 0 then Some(Number(memory.value)) else None)
    && Lookup(body, "parameters[numcpus]") == (if vcpus.Some? then Some(Number(vcpus.value)) else None)
    && Lookup(body, "parameters[keys]") == (if |sshKey| > 0 then Some(Texts([sshKey])) else None)
    && FromHints(body, own, hints)
  }

  /** Beyond the request's `own` keys a body holds exactly the allowed hints, and so nothing that is blocked. */
  ghost predicate FromHints(body: map<string, Value>, own: seq<string>, hints: ProviderHints) {
    && (forall k :: k in body && k !in own ==>
          hints.Kcli? && k in hints.entries && k in ALLOWED && body[k] == hints.entries[k])
    && (hints.Kcli? ==> forall k :: k in hints.entries && k in ALLOWED && k !in own ==> k in body)
    && (forall k :: k in Blocked() ==> k !in body)
  }

  lemma OwnKeysApart()
    ensures |MEMORY| == 18 && |NUMCPUS| == 19 && |KEYS| == 16 && |"name"| == 4 && |"profile"| == 7
    ensures MEMORY !in ALLOWED && NUMCPUS !in ALLOWED && KEYS !in ALLOWED
    ensures MEMORY !in Blocked() && NUMCPUS !in Blocked() && KEYS !in Blocked()
    ensures "name" !in Blocked() && "profile" !in Blocked()
  {
    assert "profile"[0] == 'p' && "scripts"[0] == 's';
    assert "name"[0] == 'n' && "cmds"[0] == 'c';
  }

  /** A body whose own keys are `own`: the rest of it comes from the hints. */
  lemma RestFromHints(nameKey: string, name: string, typeKey: string, typ: string, own: map<string, Value>,
                      hints: ProviderHints, exclude: seq<string>, keys: seq<string>)
    requires nameKey in keys && typeKey in keys && (forall k :: k in own ==> k in keys)
    requires forall k :: k in exclude ==> k !in ALLOWED || k in keys
    requires forall k :: k in keys ==> k !in Blocked()
    ensures FromHints(Body(nameKey, name, typeKey, typ, own, hints, exclude), keys, hints)
  {
    hide ALLOWED, Blocked;
    NoneBlockedAllowed();
  }

  /** A key that no hint may set is in a body exactly if the request sets it. */
  lemma OwnField(nameKey: string, name: string, typeKey: string, typ: string, own: map<string, Value>,
                 hints: ProviderHints, exclude: seq<string>, key: string)
    requires key !in ALLOWED && key != nameKey && key != typeKey
    ensures Lookup(Body(nameKey, name, typeKey, typ, own, hints, exclude), key) == Lookup(own, key)
  {
    hide ALLOWED;
  }

  lemma OwnValues(memory: Option<int>, vcpus: Option<int>, sshKey: string)
    ensures Lookup(MemoryParam(memory), MEMORY)
            == if memory.Some? && memory.value > 0 then Some(Number(memory.value)) else None
    ensures Lookup(CpuParam(vcpus), NUMCPUS) == if vcpus.Some? then Some(Number(vcpus.value)) else None
    ensures Lookup(KeyParam(sshKey), KEYS) == if |sshKey| > 0 then Some(Texts([sshKey])) else None
  {
    hide MEMORY, NUMCPUS, KEYS;
  }

  lemma VmParamsSay(size: Option<string>, vcpus: Option<int>, sshKey: string)
    ensures var own := VmParams(size, vcpus, sshKey);
            && own.Keys <= {MEMORY, NUMCPUS, KEYS}
            && Lookup(own, MEMORY) == Lookup(MemoryParam(MemoryOf(size)), MEMORY)
            && Lookup(own, NUMCPUS) == Lookup(CpuParam(vcpus), NUMCPUS)
            && Lookup(own, KEYS) == Lookup(KeyParam(sshKey), KEYS)
  {
    hide MemoryOf;
    OwnKeysApart();
  }

  lemma VmBodySays(kcliName: string, profile: string, size: Option<string>, vcpus: Option<int>, sshKey: string,
                   hints: ProviderHints)
    ensures VmRequest(Body("name", kcliName, "profile", profile, VmParams(size, vcpus, sshKey), hints, ["profile"]),
                      kcliName, profile, size, vcpus, sshKey, hints)
  {
    hide ALLOWED, MemoryOf, Blocked, FromHints, VmParams, Body, Lookup;
    OwnKeysApart();
    IdentityNotAllowed();
    VmParamsSay(size, vcpus, sshKey);
    VmIdentityKept(kcliName, profile, size, vcpus, sshKey, hints);
    OwnField("name", kcliName, "profile", profile, VmParams(size, vcpus, sshKey), hints, ["profile"], MEMORY);
    OwnField("name", kcliName, "profile", profile, VmParams(size, vcpus, sshKey), hints, ["profile"], NUMCPUS);
    OwnField("name", kcliName, "profile", profile, VmParams(size, vcpus, sshKey), hints, ["profile"], KEYS);
    OwnValues(MemoryOf(size), vcpus, sshKey);
    var own := VmParams(size, vcpus, sshKey);
    var body := Body("name", kcliName, "profile", profile, own, hints, ["profile"]);
    var keys := ["name", "profile", "parameters[memory]", "parameters[numcpus]", "parameters[keys]"];
    RestFromHints("name", kcliName, "profile", profile, own, hints, ["profile"], keys);
  }

  method VmBody(kcliName: string, profile: string, size: Option<string>, vcpus: Option<int>, sshKey: string,
                hints: ProviderHints)
    returns (body: map<string, Value>)
    ensures body == Body("name", kcliName, "profile", profile, VmParams(size, vcpus, sshKey), hints, ["profile"])
    ensures VmRequest(body, kcliName, profile, size, vcpus, sshKey, hints)
  {
    hide ALLOWED, Forwarded, VmParams, VmRequest;
    VmBodySays(kcliName, profile, size, vcpus, sshKey, hints);
    var params := OwnVmParams(size, vcpus, sshKey);
    params.MergeKcliHints(hints, ["profile"]);
    body := BuildBody("name", kcliName, "profile", profile, params.entries);
  }

  method OwnClusterParams(ctlplanes: Option<int>, workers: Option<int>) returns (params: Params)
    ensures fresh(params) && params.entries == ClusterParams(ctlplanes, workers)
  {
    params := new Params();
    if ctlplanes.Some? {
      params.entries := params.entries["ctlplanes" := Number(ctlplanes.value)];
    }
    if workers.Some? {
      params.entries := params.entries["workers" := Number(workers.value)];
    }
  }

  function Hinted(hints: ProviderHints, key: string): Option<Value> {
    if hints.Kcli? then Lookup(hints.entries, key) else None
  }

  /** The body of a cluster request: its own fields, where it has none the hints for them, and the other hints. */
  ghost predicate ClusterRequest(body: map<string, Value>, kcliName: string, kubetype: string, ctlplanes: Option<int>,
                                 workers: Option<int>, hints: ProviderHints)
  {
    && Lookup(body, "cluster") == Some(Text(kcliName)) && Lookup(body, "kubetype") == Some(Text(kubetype))
    && Lookup(body, "ctlplanes")
       == (if ctlplanes.Some? then Some(Number(ctlplanes.value)) else Hinted(hints, "ctlplanes"))
    && Lookup(body, "workers") == (if workers.Some? then Some(Number(workers.value)) else Hinted(hints, "workers"))
    && FromHints(body, ["cluster", "kubetype", "ctlplanes", "workers"], hints)
  }

  lemma ClusterKeysApart()
    ensures |"cluster"| == 7 && |"kubetype"| == 8 && |"ctlplanes"| == 9 && |"workers"| == 7
    ensures "cluster"[0] == 'c' && "workers"[0] == 'w'
    ensures "ctlplanes" in ALLOWED && "workers" in ALLOWED
    ensures "cluster" !in Blocked() && "kubetype" !in Blocked()
    ensures "ctlplanes" !in Blocked() && "workers" !in Blocked()
  {
    assert "scripts"[0] == 's';
  }

  /** An allowed key comes from the request, or else from the hints. */
  lemma HintableField(nameKey: string, name: string, typeKey: string, typ: string, own: map<string, Value>,
                      hints: ProviderHints, exclude: seq<string>, key: string)
    requires key in ALLOWED && key != nameKey && key != typeKey && key !in exclude
    ensures Lookup(Body(nameKey, name, typeKey, typ, own, hints, exclude), key)
            == if key in own then Some(own[key]) else Hinted(hints, key)
  {
    hide ALLOWED;
  }

  lemma ClusterParamsSay(ctlplanes: Option<int>, workers: Option<int>)
    ensures var own := ClusterParams(ctlplanes, workers);
            && own.Keys <= {"ctlplanes", "workers"}
            && Lookup(own, "ctlplanes") == (if ctlplanes.Some? then Some(Number(ctlplanes.value)) else None)
            && Lookup(own, "workers") == (if workers.Some? then Some(Number(workers.value)) else None)
  {
    assert |"ctlplanes"| == 9 && |"workers"| == 7;
  }

  lemma ClusterBodySays(kcliName: string, kubetype: string, ctlplanes: Option<int>, workers: Option<int>,
                        hints: ProviderHints)
    ensures ClusterRequest(Body("cluster", kcliName, "kubetype", kubetype, ClusterParams(ctlplanes, workers), hints,
                                ["cluster_type"]),
                           kcliName, kubetype, ctlplanes, workers, hints)
  {
    hide ALLOWED, Blocked, FromHints, ClusterParams, Body, Hinted;
    IdentityNotAllowed();
    ClusterKeysApart();
    ClusterParamsSay(ctlplanes, workers);
    ClusterIdentityKept(kcliName, kubetype, ctlplanes, workers, hints);
    var own := ClusterParams(ctlplanes, workers);
    var keys := ["cluster", "kubetype", "ctlplanes", "workers"];
    assert |"cluster_type"| == 12;
    HintableField("cluster", kcliName, "kubetype", kubetype, own, hints, ["cluster_type"], "ctlplanes");
    HintableField("cluster", kcliName, "kubetype", kubetype, own, hints, ["cluster_type"], "workers");
    RestFromHints("cluster", kcliName, "kubetype", kubetype, own, hints, ["cluster_type"], keys);
  }

  method ClusterBody(kcliName: string, kubetype: string, ctlplanes: Option<int>, workers: Option<int>,
                     hints: ProviderHints)
    returns (body: map<string, Value>)
    ensures body == Body("cluster", kcliName, "kubetype", kubetype, ClusterParams(ctlplanes, workers), hints,
                         ["cluster_type"])
    ensures ClusterRequest(body, kcliName, kubetype, ctlplanes, workers, hints)
  {
    hide ALLOWED, Forwarded, ClusterParams, ClusterRequest;
    ClusterBodySays(kcliName, kubetype, ctlplanes, workers, hints);
    var params := OwnClusterParams(ctlplanes, workers);
    params.MergeKcliHints(hints, ["cluster_type"]);
    body := BuildBody("cluster", kcliName, "kubetype", kubetype, params.entries);
  }
}
