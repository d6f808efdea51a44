/** How kweb's status strings and a resource's age become canonical statuses. */
module StatusMap {
  import opened Resource

  const NANOSECOND := 1
  const MINUTE := 60 * 1_000_000_000 * NANOSECOND
  const PROVISIONING_THRESHOLD := 10 * MINUTE

  /** Simple case folding, for the characters that fold to an ASCII letter. */
  function Fold(c: char): char {
    if 'A' <= c <= 'Z' then (c as int + 32) as char
    else if c == '\U{17F}' then 's'   // long s
    else if c == '\U{212A}' then 'k'  // Kelvin sign
    else c
  }

  /** Case-insensitive equality with a target of lower-case ASCII letters and hyphens. */
  predicate EqualFold(s: string, target: string) {
    && |s| == |target|
    && forall i :: 0 <= i < |s| ==> Fold(s[i]) == target[i]
  }

  function MapVmStatus(kwebStatus: string, age: int): string {
    if EqualFold(kwebStatus, "up") || EqualFold(kwebStatus, "running") then
      RUNNING
    else if EqualFold(kwebStatus, "down") || EqualFold(kwebStatus, "shutoff") then
      if age < PROVISIONING_THRESHOLD then PROVISIONING else STOPPED
    else if EqualFold(kwebStatus, "paused") || EqualFold(kwebStatus, "suspended") then
      PAUSED
    else if EqualFold(kwebStatus, "error") || EqualFold(kwebStatus, "crashed")
         || EqualFold(kwebStatus, "nostate") || EqualFold(kwebStatus, "fault") then
      ERROR
    else if EqualFold(kwebStatus, "shuttingdown") || EqualFold(kwebStatus, "stopping")
         || EqualFold(kwebStatus, "powering-off") then
      STOPPING
    else
      ERROR
  }

  function MapClusterStatus(hasNodes: bool, age: int, createTimeout: int): string {
    if hasNodes then ACTIVE else if age > createTimeout then ERROR else CREATING
  }

  /** No kweb status makes the monitor report a deletion or a cluster status for a listed VM. */
  lemma VmStatusRange(kwebStatus: string, age: int)
    ensures !Leaving(MapVmStatus(kwebStatus, age))
    ensures MapVmStatus(kwebStatus, age) != CREATING && MapVmStatus(kwebStatus, age) != ACTIVE
  {
  }

  lemma ClusterStatusRange(hasNodes: bool, age: int, createTimeout: int)
    ensures !Leaving(MapClusterStatus(hasNodes, age, createTimeout))
  {
  }

  /** The mapping depends only on the letters, not on their case: equal foldings map alike. */
  lemma CaseIrrelevant(a: string, b: string, age: int)
    requires |a| == |b| && forall i :: 0 <= i < |a| ==> Fold(a[i]) == Fold(b[i])
    ensures MapVmStatus(a, age) == MapVmStatus(b, age)
  {
  }

  /** As a VM ages under one kweb status, its mapping changes at most once: PROVISIONING to STOPPED. */
  lemma AgeingVm(kwebStatus: string, younger: int, older: int)
    requires younger <= older
    requires MapVmStatus(kwebStatus, younger) != MapVmStatus(kwebStatus, older)
    ensures MapVmStatus(kwebStatus, younger) == PROVISIONING && MapVmStatus(kwebStatus, older) == STOPPED
    ensures younger < PROVISIONING_THRESHOLD <= older
  {
  }

  // ---------- The tables ----------

  /** How a character of a status word may be written: in either case, and an s also as a long s. */
  function Spellings(c: char): string {
    if c == 's' then "sS\U{17F}" else if 'a' <= c <= 'z' then [c, (c as int - 32) as char] else [c]
  }

  predicate Spells(s: string, word: string) {
    |s| == |word| && forall i :: 0 <= i < |s| ==> s[i] in Spellings(word[i])
  }

  predicate SpellsAny(s: string, words: seq<string>) {
    exists i :: 0 <= i < |words| && Spells(s, words[i])
  }

  /** The status of a listed VM, by kweb's word for it in any casing and the VM's age in nanoseconds. */
  predicate VmTable(word: string, age: int, status: string) {
    if SpellsAny(word, ["up", "running"]) then status == "RUNNING"
    else if SpellsAny(word, ["down", "shutoff"]) then
      status == if age < 600_000_000_000 then "PROVISIONING" else "STOPPED"
    else if SpellsAny(word, ["paused", "suspended"]) then status == "PAUSED"
    else if SpellsAny(word, ["error", "crashed", "nostate", "fault"]) then status == "ERROR"
    else if SpellsAny(word, ["shuttingdown", "stopping", "powering-off"]) then status == "STOPPING"
    else status == "ERROR"
  }

  predicate LowerWord(word: string) {
    forall i :: 0 <= i < |word| ==> ('a' <= word[i] <= 'z' && word[i] != 'k') || word[i] == '-'
  }

  lemma FoldSpells(c: char, letter: char)
    requires ('a' <= letter <= 'z' && letter != 'k') || letter == '-'
    ensures Fold(c) == letter <==> c in Spellings(letter)
  {
  }

  lemma EqualFoldSpells(s: string, word: string)
    requires LowerWord(word)
    ensures EqualFold(s, word) <==> Spells(s, word)
  {
    hide Fold, Spellings;
    if |s| == |word| {
      forall i | 0 <= i < |s|
        ensures Fold(s[i]) == word[i] <==> s[i] in Spellings(word[i])
      {
        FoldSpells(s[i], word[i]);
      }
    }
  }

  lemma SpellsTwo(s: string, a: string, b: string)
    requires LowerWord(a) && LowerWord(b)
    ensures SpellsAny(s, [a, b]) <==> EqualFold(s, a) || EqualFold(s, b)
  {
    EqualFoldSpells(s, a);
    EqualFoldSpells(s, b);
    assert [a, b][0] == a && [a, b][1] == b;
  }

  lemma SpellsThree(s: string, a: string, b: string, c: string)
    requires LowerWord(a) && LowerWord(b) && LowerWord(c)
    ensures SpellsAny(s, [a, b, c]) <==> EqualFold(s, a) || EqualFold(s, b) || EqualFold(s, c)
  {
    EqualFoldSpells(s, a);
    EqualFoldSpells(s, b);
    EqualFoldSpells(s, c);
    assert [a, b, c][0] == a && [a, b, c][1] == b && [a, b, c][2] == c;
  }

  lemma SpellsFour(s: string, a: string, b: string, c: string, d: string)
    requires LowerWord(a) && LowerWord(b) && LowerWord(c) && LowerWord(d)
    ensures SpellsAny(s, [a, b, c, d]) <==> EqualFold(s, a) || EqualFold(s, b) || EqualFold(s, c) || EqualFold(s, d)
  {
    EqualFoldSpells(s, a);
    EqualFoldSpells(s, b);
    EqualFoldSpells(s, c);
    EqualFoldSpells(s, d);
    assert [a, b, c, d][0] == a && [a, b, c, d][1] == b && [a, b, c, d][2] == c && [a, b, c, d][3] == d;
  }

  /** The mapping is the table. */
  lemma VmStatusTable(word: string, age: int)
    ensures VmTable(word, age, MapVmStatus(word, age))
  {
    hide SpellsAny, Spells, EqualFold;
    SpellsTwo(word, "up", "running");
    SpellsTwo(word, "down", "shutoff");
    SpellsTwo(word, "paused", "suspended");
    SpellsThree(word, "shuttingdown", "stopping", "powering-off");
    SpellsFour(word, "error", "crashed", "nostate", "fault");
  }

  /** A listed cluster is ACTIVE with nodes; without, it is ERROR past the timeout and CREATING up to it. */
  lemma ClusterStatusTable(hasNodes: bool, age: int, createTimeout: int)
    ensures MapClusterStatus(hasNodes, age, createTimeout)
            == if hasNodes then "ACTIVE" else if age > createTimeout then "ERROR" else "CREATING"
  {
  }
}
