/** Idempotent extraction and the disabling of extractor versions
    (packs/activity_normalizer/behaviors.py and tools.py).

    Records and candidates are named by their place in the creation-ordered lists. */
module ExtractionLifecycle {
  import opened Kinds
  import opened Prelude

  /** What an extraction identity hashes. */
  datatype Key = Key(revision: string, extractor: string, version: string, config: string)

  datatype Record = Record(key: Key, completed: bool, candidates: seq<nat>)

  /** `open` is the candidate's own status; memory candidates have none, so theirs never changes. */
  datatype Candidate = Candidate(kind: Kind, open: bool)

  /** A recorded version state: of one configuration, or of all of them. */
  datatype VersionState = VersionState(extractor: string, version: string, config: Option<string>, disabled: bool)

  /** `evaluations` lists the subjects of the invalidating evaluations. */
  datatype Graph = Graph(records: seq<Record>, candidates: seq<Candidate>, states: seq<VersionState>,
                         evaluations: seq<nat>)

  const EMPTY := Graph([], [], [], [])

  predicate Covers(s: VersionState, key: Key) {
    s.extractor == key.extractor && s.version == key.version && (s.config.None? || s.config == Some(key.config))
  }

  /** The last state that covers the key decides. */
  function DisabledBy(states: seq<VersionState>, key: Key): bool {
    if states == [] then false
    else
      var last := states[|states| - 1];
      if Covers(last, key) then last.disabled else DisabledBy(states[..|states| - 1], key)
  }

  function Find(records: seq<Record>, key: Key): Option<nat>
    ensures Find(records, key).Some? ==>
              Find(records, key).value < |records| && records[Find(records, key).value].key == key
    ensures Find(records, key).None? ==> forall i :: 0 <= i < |records| ==> records[i].key != key
  {
    if records == [] then None
    else
      var before := Find(records[..|records| - 1], key);
      if before.Some? then before
      else if records[|records| - 1].key == key then Some(|records| - 1)
      else None
  }

  // ----- one extraction

  function Fresh(kinds: seq<Kind>): seq<Candidate> {
    seq(|kinds|, i requires 0 <= i < |kinds| => Candidate(kinds[i], true))
  }

  function Ids(from: nat, n: nat): seq<nat> { seq(n, i => from + i) }

  /** `drafts` is what the extractor returns; None when it is unknown or raises. */
  function Extracted(g: Graph, key: Key, drafts: Option<seq<Kind>>): Graph {
    if Find(g.records, key).Some? || DisabledBy(g.states, key) || drafts.None? then g
    else g.(records := g.records + [Record(key, true, Ids(|g.candidates|, |drafts.value|))],
            candidates := g.candidates + Fresh(drafts.value))
  }

  // ----- disabling

  datatype Disable = Disable(extractor: string, version: string, config: Option<string>)

  /** The records the call invalidates: an empty configuration id selects every configuration. */
  predicate InScope(d: Disable, key: Key) {
    && d.extractor == key.extractor && d.version == key.version
    && (d.config.None? || d.config.value == "" || d.config.value == key.config)
  }

  predicate ListedInScope(d: Disable, records: seq<Record>, n: nat, c: nat)
    requires n <= |records|
  {
    exists i :: 0 <= i < n && InScope(d, records[i].key) && c in records[i].candidates
  }

  function CloseRecords(d: Disable, records: seq<Record>, n: nat): seq<Record> {
    seq(|records|, i requires 0 <= i < |records| =>
      if i < n && InScope(d, records[i].key) then records[i].(completed := false) else records[i])
  }

  function CloseCandidates(d: Disable, g: Graph, n: nat): seq<Candidate>
    requires n <= |g.records|
  {
    seq(|g.candidates|, c requires 0 <= c < |g.candidates| =>
      if !g.candidates[c].kind.Memory? && ListedInScope(d, g.records, n, c)
      then g.candidates[c].(open := false) else g.candidates[c])
  }

  /** The memory candidates among the ids. */
  function MemoryIds(candidates: seq<Candidate>, ids: seq<nat>): seq<nat> {
    if ids == [] then []
    else
      var last := ids[|ids| - 1];
      MemoryIds(candidates, ids[..|ids| - 1]) +
      if last < |candidates| && candidates[last].kind.Memory? then [last] else []
  }

  function MemoryInScope(d: Disable, g: Graph, n: nat): seq<nat>
    requires n <= |g.records|
  {
    if n == 0 then []
    else MemoryInScope(d, g, n - 1) +
         if InScope(d, g.records[n - 1].key) then MemoryIds(g.candidates, g.records[n - 1].candidates) else []
  }

  /** The effect of a disable call whose first `n` records have been visited. */
  function DisabledUpTo(g: Graph, d: Disable, n: nat): Graph
    requires n <= |g.records|
  {
    Graph(CloseRecords(d, g.records, n), CloseCandidates(d, g, n),
          g.states + [VersionState(d.extractor, d.version, d.config, true)],
          g.evaluations + MemoryInScope(d, g, n))
  }

  function Disabled(g: Graph, d: Disable): Graph { DisabledUpTo(g, d, |g.records|) }

  // ----- runs

  datatype Op = Extract(key: Key, drafts: Option<seq<Kind>>) | Switch(disable: Disable)

  function Step(g: Graph, op: Op): Graph {
    match op case Extract(key, drafts) => Extracted(g, key, drafts) case Switch(d) => Disabled(g, d)
  }

  function After(run: seq<Op>): Graph {
    if run == [] then EMPTY else Step(After(run[..|run| - 1]), run[|run| - 1])
  }

  /** Candidate `c` no longer counts: its status says so, or an evaluation does. */
  predicate Dead(g: Graph, c: nat) {
    c < |g.candidates| && if g.candidates[c].kind.Memory? then c in g.evaluations else !g.candidates[c].open
  }

  ghost predicate RecordSound(g: Graph, i: nat)
    requires i < |g.records|
  {
    var r := g.records[i];
    && (forall c :: c in r.candidates ==> c < |g.candidates|)
    && (r.completed ==> !DisabledBy(g.states, r.key))
    && (!r.completed ==> forall c :: c in r.candidates ==> Dead(g, c))
  }

  ghost predicate Sound(g: Graph) {
    && (forall i, j :: 0 <= i < j < |g.records| ==> g.records[i].key != g.records[j].key)
    && (forall i :: 0 <= i < |g.records| ==> RecordSound(g, i))
    && (forall s :: s in g.states ==> s.disabled)
  }

  lemma ExtractedSound(g: Graph, key: Key, drafts: Option<seq<Kind>>)
    requires Sound(g)
    ensures Sound(Extracted(g, key, drafts))
  {
    var h := Extracted(g, key, drafts);
    if h != g {
      forall i | 0 <= i < |h.records| ensures RecordSound(h, i) {
        if i < |g.records| { assert RecordSound(g, i); }
      }
    }
  }

  lemma {:induction false} MemoryIdsHold(candidates: seq<Candidate>, ids: seq<nat>, c: nat)
    requires c in ids && c < |candidates| && candidates[c].kind.Memory?
    ensures c in MemoryIds(candidates, ids)
  {
    if c == ids[|ids| - 1] {
    } else {
      MemoryIdsHold(candidates, ids[..|ids| - 1], c);
    }
  }

  lemma {:induction false} MemoryInScopeHolds(d: Disable, g: Graph, n: nat, i: nat, c: nat)
    requires i < n <= |g.records| && InScope(d, g.records[i].key) && c in g.records[i].candidates
    requires c < |g.candidates| && g.candidates[c].kind.Memory?
    ensures c in MemoryInScope(d, g, n)
    decreases n
  {
    if i == n - 1 {
      MemoryIdsHold(g.candidates, g.records[i].candidates, c);
    } else {
      MemoryInScopeHolds(d, g, n - 1, i, c);
    }
  }

  /** Every candidate listed by a record in scope is dead after the call. */
  lemma DisabledKills(g: Graph, d: Disable, i: nat, c: nat)
    requires i < |g.records| && InScope(d, g.records[i].key) && c in g.records[i].candidates && c < |g.candidates|
    ensures Dead(Disabled(g, d), c)
  {
    if g.candidates[c].kind.Memory? {
      MemoryInScopeHolds(d, g, |g.records|, i, c);
    } else {
      assert ListedInScope(d, g.records, |g.records|, c);
    }
  }

  lemma DeadStays(g: Graph, d: Disable, c: nat)
    requires Dead(g, c)
    ensures Dead(Disabled(g, d), c)
  {
  }

  lemma DisabledSound(g: Graph, d: Disable)
    requires Sound(g)
    ensures Sound(Disabled(g, d))
  {
    var h := Disabled(g, d);
    assert h.states[..|h.states| - 1] == g.states;
    forall i | 0 <= i < |h.records| ensures RecordSound(h, i) {
      assert RecordSound(g, i);
      if !h.records[i].completed {
        forall c | c in h.records[i].candidates ensures Dead(h, c) {
          if InScope(d, g.records[i].key) { DisabledKills(g, d, i, c); } else { DeadStays(g, d, c); }
        }
      }
    }
    assert forall i :: 0 <= i < |h.records| ==> h.records[i].key == g.records[i].key;
  }

  /** Over every run each identity has at most one record, every completed record's version is
      enabled, and every candidate of an invalidated record is dead. */
  lemma {:induction false} RunSound(run: seq<Op>)
    ensures Sound(After(run))
  {
    if run == [] {
    } else {
      RunSound(run[..|run| - 1]);
      match run[|run| - 1]
      case Extract(key, drafts) => ExtractedSound(After(run[..|run| - 1]), key, drafts);
      case Switch(d) => DisabledSound(After(run[..|run| - 1]), d);
    }
  }

  /** States are only ever disabling, so a disabled key stays disabled. */
  lemma DisabledStays(g: Graph, op: Op, key: Key)
    requires Sound(g) && DisabledBy(g.states, key)
    ensures DisabledBy(Step(g, op).states, key)
  {
    if op.Switch? { assert Step(g, op).states[..|g.states|] == g.states; }
  }

  /** A key the call invalidates is also refused from then on, if and only if the configuration
      id is not the empty string, or the key was refused already or has the empty id itself. */
  lemma RefusedIff(g: Graph, d: Disable, key: Key)
    requires Sound(g) && InScope(d, key)
    ensures DisabledBy(Disabled(g, d).states, key) <==>
            d.config != Some("") || key.config == "" || DisabledBy(g.states, key)
  {
    assert Disabled(g, d).states[..|g.states|] == g.states;
  }

  ghost predicate Retired(g: Graph, d: Disable) {
    forall i :: 0 <= i < |g.records| && InScope(d, g.records[i].key) ==>
      !g.records[i].completed && forall c :: c in g.records[i].candidates ==> Dead(g, c)
  }

  /** After a version, or one configuration of it, is disabled: however the run goes on, no
      record of it is completed or added, and all their candidates are dead. */
  lemma {:induction false} DisabledForever(before: seq<Op>, d: Disable, since: seq<Op>)
    requires d.config != Some("")
    ensures var g := After(before + [Switch(d)] + since);
            Retired(g, d) && (forall key :: InScope(d, key) ==> DisabledBy(g.states, key)) &&
            (forall key :: InScope(d, key) ==> (Find(g.records, key).Some? <==> Find(After(before).records, key).Some?))
    decreases |since|
  {
    var run := before + [Switch(d)] + since;
    RunSound(before);
    RunSound(run);
    if since == [] {
      assert run == before + [Switch(d)] && run[..|run| - 1] == before;
      RefusedAll(After(before), d);
      RetiredNow(After(run), d);
      forall key ensures Find(After(run).records, key).Some? <==> Find(After(before).records, key).Some? {
        SameKeys(After(before).records, After(run).records, key);
      }
    } else {
      var init, op := since[..|since| - 1], since[|since| - 1];
      var prefix := before + [Switch(d)] + init;
      assert since == init + [op] && run[..|run| - 1] == prefix;
      DisabledForever(before, d, init);
      RunSound(prefix);
      DisabledOnward(After(before).records, After(prefix), d, op);
    }
  }

  lemma RefusedAll(g: Graph, d: Disable)
    requires Sound(g) && d.config != Some("")
    ensures forall key :: InScope(d, key) ==> DisabledBy(Disabled(g, d).states, key)
  {
    forall key | InScope(d, key) ensures DisabledBy(Disabled(g, d).states, key) { RefusedIff(g, d, key); }
  }

  lemma RetiredNow(g: Graph, d: Disable)
    requires Sound(g) && forall key :: InScope(d, key) ==> DisabledBy(g.states, key)
    ensures Retired(g, d)
  {
    forall i | 0 <= i < |g.records| && InScope(d, g.records[i].key)
      ensures !g.records[i].completed && forall c :: c in g.records[i].candidates ==> Dead(g, c)
    {
      assert RecordSound(g, i);
    }
  }

  lemma SameKeys(rs: seq<Record>, ss: seq<Record>, key: Key)
    requires |rs| == |ss| && forall i :: 0 <= i < |rs| ==> rs[i].key == ss[i].key
    ensures Find(rs, key).Some? <==> Find(ss, key).Some?
  {
  }

  lemma DisabledOnward(origin: seq<Record>, g: Graph, d: Disable, op: Op)
    requires Sound(g) && Sound(Step(g, op))
    requires forall key :: InScope(d, key) ==> DisabledBy(g.states, key)
    requires forall key :: InScope(d, key) ==> (Find(g.records, key).Some? <==> Find(origin, key).Some?)
    ensures Retired(Step(g, op), d) && forall key :: InScope(d, key) ==> DisabledBy(Step(g, op).states, key)
    ensures forall key :: InScope(d, key) ==> (Find(Step(g, op).records, key).Some? <==> Find(origin, key).Some?)
  {
    var h := Step(g, op);
    forall key | InScope(d, key)
      ensures DisabledBy(h.states, key) && (Find(h.records, key).Some? <==> Find(g.records, key).Some?)
    {
      DisabledStays(g, op, key);
      if op.Switch? {
        SameKeys(g.records, h.records, key);
      } else if h != g {
        assert h.records[..|g.records|] == g.records;
        assert op.key != key;
      }
    }
    RetiredNow(h, d);
  }

  lemma AfterAppend(run: seq<Op>, op: Op)
    ensures After(run + [op]) == Step(After(run), op)
  {
    assert (run + [op])[..|run|] == run;
  }

  lemma FirstRecord(a: Key)
    ensures After([Extract(a, Some([]))]) == Graph([Record(a, true, [])], [], [], [])
  {
    AfterAppend([], Extract(a, Some([])));
    assert [] + [Extract(a, Some([]))] == [Extract(a, Some([]))];
    assert EMPTY.records + [Record(a, true, [])] == [Record(a, true, [])] && EMPTY.candidates + Fresh([]) == [];
    assert Ids(0, 0) == [];
  }

  lemma FirstInvalidated(a: Key, d: Disable) returns (g: Graph)
    requires InScope(d, a)
    ensures g == Disabled(Graph([Record(a, true, [])], [], [], []), d)
    ensures g.records == [Record(a, false, [])] && g.candidates == []
    ensures g.states == [VersionState(d.extractor, d.version, d.config, true)]
  {
    g := Disabled(Graph([Record(a, true, [])], [], [], []), d);
  }

  /** Any two keys the call invalidates, neither with the empty configuration id. */
  lemma EmptyConfigFails(a: Key, b: Key, d: Disable)
    requires a != b && InScope(d, a) && InScope(d, b) && d.config == Some("") && b.config != ""
    ensures After([Extract(a, Some([])), Switch(d), Extract(b, Some([]))]).records ==
            [Record(a, false, []), Record(b, true, [])]
  {
    var r1: seq<Op> := [Extract(a, Some([]))];
    FirstRecord(a);
    AfterAppend(r1, Switch(d));
    AfterAppend(r1 + [Switch(d)], Extract(b, Some([])));
    assert r1 + [Switch(d)] + [Extract(b, Some([]))] == [Extract(a, Some([])), Switch(d), Extract(b, Some([]))];
    var g := FirstInvalidated(a, d);
    assert g.records[..0] == [] && g.states[..0] == [];
    assert Find(g.records, b).None? && !DisabledBy(g.states, b);
    assert Ids(0, 0) == [];
  }

  /** With the empty configuration id the promise fails: a record is invalidated, and the same
      version then completes a new one. */
  lemma EmptyConfigExample()
    ensures var a := Key("rev-a", "activity.structure", "0.1.0", "default");
            var b := Key("rev-b", "activity.structure", "0.1.0", "default");
            var d := Disable("activity.structure", "0.1.0", Some(""));
            var g := After([Extract(a, Some([])), Switch(d), Extract(b, Some([]))]);
            InScope(d, b) && g.records == [Record(a, false, []), Record(b, true, [])]
  {
    var a := Key("rev-a", "activity.structure", "0.1.0", "default");
    var b := Key("rev-b", "activity.structure", "0.1.0", "default");
    assert a != b by { assert a.revision[4] != b.revision[4]; }
    EmptyConfigFails(a, b, Disable("activity.structure", "0.1.0", Some("")));
  }

  // ----- what an extraction adds and a disable reaches, in their own terms

  /** The call names this extractor and version, and this configuration, none, or the empty one. */
  ghost predicate Reaches(d: Disable, key: Key) {
    && d.extractor == key.extractor && d.version == key.version
    && (d.config == None || d.config == Some("") || d.config == Some(key.config))
  }

  /** The same call, read as a refusal: here the empty configuration is a configuration like any other. */
  ghost predicate Refuses(d: Disable, key: Key) {
    d.extractor == key.extractor && d.version == key.version && (d.config == None || d.config == Some(key.config))
  }

  /** A disable closes the records it reaches and no others, and refuses what it names from then on
      and nothing it does not. */
  lemma DisableExactly(g: Graph, d: Disable, i: nat, key: Key)
    ensures var h := Disabled(g, d);
            && |h.records| == |g.records| && |h.candidates| == |g.candidates|
            && (i < |g.records| ==>
                  var r := g.records[i];
                  h.records[i] == if Reaches(d, r.key) then r.(completed := false) else r)
            && (DisabledBy(h.states, key) <==> DisabledBy(g.states, key) || Refuses(d, key))
  {
    assert Disabled(g, d).states[..|g.states|] == g.states;
  }

  /** Some record the call reaches lists the candidate. */
  ghost predicate ReachedAt(g: Graph, d: Disable, i: nat, c: nat) {
    i < |g.records| && Reaches(d, g.records[i].key) && c in g.records[i].candidates
  }

  /** A candidate that dies is one that a reached record lists. */
  lemma DisableSpares(g: Graph, d: Disable, c: nat)
    requires c < |g.candidates| && !Dead(g, c)
    ensures Dead(Disabled(g, d), c) <==> exists i: nat :: ReachedAt(g, d, i, c)
    ensures Disabled(g, d).candidates[c].kind == g.candidates[c].kind
  {
    if i: nat :| ReachedAt(g, d, i, c) { DisabledKills(g, d, i, c); }
    if Dead(Disabled(g, d), c) {
      if g.candidates[c].kind.Memory? {
        var i := MemoryInScopeFrom(d, g, |g.records|, c);
        assert ReachedAt(g, d, i, c);
      } else {
        var i :| 0 <= i < |g.records| && InScope(d, g.records[i].key) && c in g.records[i].candidates;
        assert ReachedAt(g, d, i, c);
      }
    }
  }

  /** A disable adds evaluations for the memory candidates that a reached record lists, for no others. */
  lemma EvaluationsExactly(g: Graph, d: Disable, c: nat)
    ensures var before, after := g.evaluations, Disabled(g, d).evaluations;
            && before <= after
            && (c in after[|before|..] <==>
                  c < |g.candidates| && g.candidates[c].kind.Memory? && exists i: nat :: ReachedAt(g, d, i, c))
  {
    assert Disabled(g, d).evaluations[|g.evaluations|..] == MemoryInScope(d, g, |g.records|);
    MemoryInScopeIff(d, g, |g.records|, c);
  }

  lemma {:induction false} MemoryInScopeIff(d: Disable, g: Graph, n: nat, c: nat)
    requires n <= |g.records|
    ensures c in MemoryInScope(d, g, n) <==>
            c < |g.candidates| && g.candidates[c].kind.Memory? && exists i: nat :: i < n && ReachedAt(g, d, i, c)
  {
    if n == 0 {
    } else {
      MemoryInScopeIff(d, g, n - 1, c);
      MemoryIdsIff(g.candidates, g.records[n - 1].candidates, c);
      assert ReachedAt(g, d, n - 1, c) <==>
             InScope(d, g.records[n - 1].key) && c in g.records[n - 1].candidates;
    }
  }

  lemma {:induction false} MemoryIdsIff(candidates: seq<Candidate>, ids: seq<nat>, c: nat)
    ensures c in MemoryIds(candidates, ids) <==> c in ids && c < |candidates| && candidates[c].kind.Memory?
  {
    if ids == [] {
    } else {
      MemoryIdsIff(candidates, ids[..|ids| - 1], c);
      assert ids == ids[..|ids| - 1] + [ids[|ids| - 1]];
    }
  }

  lemma {:induction false} MemoryInScopeFrom(d: Disable, g: Graph, n: nat, c: nat) returns (i: nat)
    requires n <= |g.records| && c in MemoryInScope(d, g, n)
    ensures i < n && InScope(d, g.records[i].key) && c in g.records[i].candidates
  {
    if c in MemoryInScope(d, g, n - 1) {
      i := MemoryInScopeFrom(d, g, n - 1, c);
    } else {
      i := n - 1;
      MemoryIdsFrom(g.candidates, g.records[i].candidates, c);
    }
  }

  lemma {:induction false} MemoryIdsFrom(candidates: seq<Candidate>, ids: seq<nat>, c: nat)
    requires c in MemoryIds(candidates, ids)
    ensures c in ids
  {
    if c == ids[|ids| - 1] {
    } else {
      MemoryIdsFrom(candidates, ids[..|ids| - 1], c);
    }
  }

  /** An extraction adds a record if and only if its identity has none, its version is not refused and
      the extractor answers; the record lists the new candidates, open and in order. */
  lemma ExtractsIff(g: Graph, key: Key, drafts: Option<seq<Kind>>)
    ensures var h, n := Extracted(g, key, drafts), |g.candidates|;
            && (|h.records| > |g.records| <==>
                  (forall i :: 0 <= i < |g.records| ==> g.records[i].key != key) &&
                  !DisabledBy(g.states, key) && drafts != None)
            && (|h.records| <= |g.records| ==> h == g)
            && (|h.records| > |g.records| ==>
                  && |h.records| == |g.records| + 1 && h.records[..|g.records|] == g.records
                  && h.records[|g.records|].key == key && h.records[|g.records|].completed
                  && |h.records[|g.records|].candidates| == |drafts.value| && |h.candidates| == n + |drafts.value|
                  && h.candidates[..n] == g.candidates && h.states == g.states && h.evaluations == g.evaluations
                  && forall k :: 0 <= k < |drafts.value| ==>
                       h.records[|g.records|].candidates[k] == n + k &&
                       h.candidates[n + k] == Candidate(drafts.value[k], true))
  {
  }

  // ----- the capabilities

  datatype Outcome = Existing(record: nat, ok: bool) | Refused | Failed | Created(record: nat)

  class Extraction {
    var records: seq<Record>
    var candidates: seq<Candidate>
    var states: seq<VersionState>
    var evaluations: seq<nat>

    function Value(): Graph
      reads this
    {
      Graph(records, candidates, states, evaluations)
    }

    constructor ()
      ensures Value() == EMPTY
    {
      records, candidates, states, evaluations := [], [], [], [];
    }

    method ExtractorDisabled(key: Key) returns (disabled: bool)
      ensures disabled == DisabledBy(states, key)
    {
      disabled := false;
      for i := 0 to |states|
        invariant disabled == DisabledBy(states[..i], key)
      {
        assert states[..i + 1][..i] == states[..i];
        if Covers(states[i], key) { disabled := states[i].disabled; }
      }
      assert states[..|states|] == states;
    }

    method RunExtraction(key: Key, drafts: Option<seq<Kind>>) returns (outcome: Outcome)
      modifies this
      ensures Value() == Extracted(old(Value()), key, drafts)
      ensures outcome == (var found := Find(old(records), key);
                          if found.Some? then Existing(found.value, old(records)[found.value].completed)
                          else if DisabledBy(old(states), key) then Refused
                          else if drafts.None? then Failed
                          else Created(|old(records)|))
    {
      for i := 0 to |records|
        invariant Find(records[..i], key).None?
      {
        assert records[..i + 1][..i] == records[..i];
        if records[i].key == key {
          FindPrefix(records, key, i + 1);
          return Existing(i, records[i].completed);
        }
      }
      assert records[..|records|] == records;
      var disabled := ExtractorDisabled(key);
      if disabled { return Refused; }
      if drafts.None? { return Failed; }
      var kinds, at := drafts.value, |records|;
      records := records + [Record(key, true, [])];
      var ids: seq<nat> := [];
      for ordinal := 0 to |kinds|
        invariant records == old(records) + [Record(key, true, [])]
        invariant candidates == old(candidates) + Fresh(kinds[..ordinal]) && ids == Ids(|old(candidates)|, ordinal)
        invariant states == old(states) && evaluations == old(evaluations)
      {
        ids := ids + [|candidates|];
        candidates := candidates + [Candidate(kinds[ordinal], true)];
      }
      assert kinds[..|kinds|] == kinds;
      records := records[at := records[at].(candidates := ids)];
      return Created(at);
    }

    method DisableExtractorVersion(d: Disable) returns (closedRecords: nat, closedCandidates: nat)
      modifies this
      ensures Value() == Disabled(old(Value()), d)
      ensures closedRecords == CompletedInScope(d, old(records), |old(records)|)
      ensures closedCandidates == ListedCount(d, old(Value()), |old(records)|)
    {
      ghost var g := Value();
      states := states + [VersionState(d.extractor, d.version, d.config, true)];
      closedRecords, closedCandidates := 0, 0;
      NothingVisited(d, g);
      for i := 0 to |records|
        invariant |records| == |g.records| && Value() == DisabledUpTo(g, d, i)
        invariant closedRecords == CompletedInScope(d, g.records, i) && closedCandidates == ListedCount(d, g, i)
      {
        var wasCompleted, closed := VisitRecord(g, d, i);
        if wasCompleted { closedRecords := closedRecords + 1; }
        closedCandidates := closedCandidates + closed;
      }
    }

    method VisitRecord(ghost g: Graph, d: Disable, i: nat) returns (wasCompleted: bool, closed: nat)
      requires i < |g.records| && Value() == DisabledUpTo(g, d, i)
      modifies this
      ensures Value() == DisabledUpTo(g, d, i + 1)
      ensures wasCompleted == (InScope(d, g.records[i].key) && g.records[i].completed)
      ensures closed == if InScope(d, g.records[i].key) then Present(g.candidates, g.records[i].candidates) else 0
    {
      wasCompleted, closed := false, 0;
      DisabledUpToStep(g, d, i);
      if InScope(d, records[i].key) {
        wasCompleted := records[i].completed;
        if wasCompleted { records := records[i := records[i].(completed := false)]; }
        closed := CloseListed(i);
      }
    }

    /** The inner loop: every candidate the record lists. */
    method CloseListed(i: nat) returns (closed: nat)
      requires i < |records|
      modifies this`candidates, this`evaluations
      ensures candidates == CloseSome(old(candidates), records[i].candidates)
      ensures evaluations == old(evaluations) + MemoryIds(old(candidates), records[i].candidates)
      ensures closed == Present(old(candidates), records[i].candidates)
    {
      var ids := records[i].candidates;
      closed := 0;
      for k := 0 to |ids|
        invariant candidates == CloseSome(old(candidates), ids[..k])
        invariant evaluations == old(evaluations) + MemoryIds(old(candidates), ids[..k])
        invariant closed == Present(old(candidates), ids[..k])
      {
        var c := ids[k];
        CloseSomeStep(old(candidates), ids, k);
        if c < |candidates| {
          if candidates[c].kind.Memory? {
            evaluations := evaluations + [c];
          } else {
            candidates := candidates[c := candidates[c].(open := false)];
          }
          closed := closed + 1;
        }
      }
      assert ids[..|ids|] == ids;
    }
  }

  lemma CloseSomeStep(candidates: seq<Candidate>, ids: seq<nat>, k: nat)
    requires k < |ids|
    ensures var before, c := CloseSome(candidates, ids[..k]), ids[k];
            CloseSome(candidates, ids[..k + 1]) ==
              if c < |candidates| && !candidates[c].kind.Memory? then before[c := before[c].(open := false)] else before
    ensures ids[..k + 1][..k] == ids[..k]
    ensures forall c :: 0 <= c < |candidates| ==> CloseSome(candidates, ids[..k])[c].kind == candidates[c].kind
  {
    assert ids[..k + 1] == ids[..k] + [ids[k]];
  }

  lemma {:induction false} SameKinds(candidates: seq<Candidate>, others: seq<Candidate>, ids: seq<nat>)
    requires |candidates| == |others| && forall c :: 0 <= c < |candidates| ==> candidates[c].kind == others[c].kind
    ensures MemoryIds(candidates, ids) == MemoryIds(others, ids) && Present(candidates, ids) == Present(others, ids)
  {
    if ids == [] {
    } else {
      SameKinds(candidates, others, ids[..|ids| - 1]);
    }
  }

  lemma {:induction false} FindPrefix(records: seq<Record>, key: Key, n: nat)
    requires n <= |records| && Find(records[..n], key).Some?
    ensures Find(records, key) == Find(records[..n], key)
  {
    if n == |records| {
      assert records[..n] == records;
    } else {
      assert records[..|records| - 1][..n] == records[..n];
      FindPrefix(records[..|records| - 1], key, n);
    }
  }

  function CompletedInScope(d: Disable, records: seq<Record>, n: nat): nat
    requires n <= |records|
  {
    if n == 0 then 0
    else
      var r := records[n - 1];
      CompletedInScope(d, records, n - 1) + if InScope(d, r.key) && r.completed then 1 else 0
  }

  function Present(candidates: seq<Candidate>, ids: seq<nat>): nat {
    if ids == [] then 0 else Present(candidates, ids[..|ids| - 1]) + if ids[|ids| - 1] < |candidates| then 1 else 0
  }

  function ListedCount(d: Disable, g: Graph, n: nat): nat
    requires n <= |g.records|
  {
    if n == 0 then 0
    else ListedCount(d, g, n - 1) +
         if InScope(d, g.records[n - 1].key) then Present(g.candidates, g.records[n - 1].candidates) else 0
  }

  function CloseSome(candidates: seq<Candidate>, ids: seq<nat>): seq<Candidate> {
    seq(|candidates|, c requires 0 <= c < |candidates| =>
      if !candidates[c].kind.Memory? && c in ids then candidates[c].(open := false) else candidates[c])
  }

  /** The completed records among the first `n` that the call reaches. */
  ghost function ReachedRecords(g: Graph, d: Disable, n: nat): set<nat>
    requires n <= |g.records|
  {
    set i: nat | i < n && Reaches(d, g.records[i].key) && g.records[i].completed
  }

  /** The places in the first `n` of a list of ids that name a candidate. */
  ghost function PlacesNaming(g: Graph, ids: seq<nat>, n: nat): set<nat>
    requires n <= |ids|
  {
    set k: nat | k < n && ids[k] < |g.candidates|
  }

  /** A disable reports how many completed records it reaches, and over all records it reaches how
      often they list a candidate. */
  lemma {:induction false} CountsMean(g: Graph, d: Disable, n: nat)
    requires n <= |g.records|
    ensures CompletedInScope(d, g.records, n) == |ReachedRecords(g, d, n)|
    ensures n < |g.records| ==>
              ListedCount(d, g, n + 1) ==
                ListedCount(d, g, n) +
                if Reaches(d, g.records[n].key)
                then |PlacesNaming(g, g.records[n].candidates, |g.records[n].candidates|)| else 0
    ensures ListedCount(d, g, 0) == 0
  {
    if n > 0 {
      CountsMean(g, d, n - 1);
      var r, before := g.records[n - 1], ReachedRecords(g, d, n - 1);
      assert ReachedRecords(g, d, n) == if Reaches(d, r.key) && r.completed then before + {n - 1} else before;
    }
    if n < |g.records| { PresentMeans(g, g.records[n].candidates); }
  }

  lemma {:induction false} PresentMeans(g: Graph, ids: seq<nat>)
    ensures Present(g.candidates, ids) == |PlacesNaming(g, ids, |ids|)|
  {
    if ids == [] {
    } else {
      var init, n := ids[..|ids| - 1], |ids| - 1;
      PresentMeans(g, init);
      var before := PlacesNaming(g, init, n);
      assert PlacesNaming(g, ids, n + 1) == if ids[n] < |g.candidates| then before + {n} else before;
    }
  }

  lemma NothingVisited(d: Disable, g: Graph)
    ensures CloseCandidates(d, g, 0) == g.candidates && CloseRecords(d, g.records, 0) == g.records
    ensures g.evaluations + MemoryInScope(d, g, 0) == g.evaluations
  {
  }

  lemma CloseRecordsStep(d: Disable, records: seq<Record>, i: nat)
    requires i < |records|
    ensures CloseRecords(d, records, i + 1) ==
            if InScope(d, records[i].key) then CloseRecords(d, records, i)[i := records[i].(completed := false)]
            else CloseRecords(d, records, i)
  {
  }

  /** Visiting record `i` closes it and its candidates. */
  lemma DisabledUpToStep(g: Graph, d: Disable, i: nat)
    requires i < |g.records|
    ensures var m, r := DisabledUpTo(g, d, i), g.records[i];
            |m.records| == |g.records| && m.records[i] == r &&
                Present(m.candidates, r.candidates) == Present(g.candidates, r.candidates) &&
            DisabledUpTo(g, d, i + 1) ==
              if !InScope(d, r.key) then m
              else Graph(m.records[i := r.(completed := false)], CloseSome(m.candidates, r.candidates), m.states,
                         m.evaluations + MemoryIds(m.candidates, r.candidates))
  {
    CloseRecordsStep(d, g.records, i);
    SameKinds(g.candidates, CloseCandidates(d, g, i), g.records[i].candidates);
    EvaluationsStep(g, d, i);
    if InScope(d, g.records[i].key) { CloseCandidatesStep(d, g, i); } else { OutOfScope(d, g, i); }
  }

  lemma EvaluationsStep(g: Graph, d: Disable, i: nat)
    requires i < |g.records|
    ensures g.evaluations + MemoryInScope(d, g, i + 1) ==
            g.evaluations + MemoryInScope(d, g, i) +
            if InScope(d, g.records[i].key) then MemoryIds(g.candidates, g.records[i].candidates) else []
  {
  }

  lemma OutOfScope(d: Disable, g: Graph, i: nat)
    requires i < |g.records| && !InScope(d, g.records[i].key)
    ensures CloseCandidates(d, g, i + 1) == CloseCandidates(d, g, i)
  {
    forall c: nat ensures ListedInScope(d, g.records, i + 1, c) <==> ListedInScope(d, g.records, i, c) {
    }
  }

  lemma CloseCandidatesStep(d: Disable, g: Graph, i: nat)
    requires i < |g.records| && InScope(d, g.records[i].key)
    ensures CloseCandidates(d, g, i + 1) == CloseSome(CloseCandidates(d, g, i), g.records[i].candidates)
  {
    forall c: nat
      ensures ListedInScope(d, g.records, i + 1, c) <==>
                ListedInScope(d, g.records, i, c) || c in g.records[i].candidates
    {
    }
  }
}
