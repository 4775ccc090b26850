/** Candidates written directly by the legacy extraction path, and the compatibility projector
    that mints the same candidates from annotations (packs/activity_normalizer/behaviors.py). */
module CandidateProjection {
  import opened Kinds
  import opened StructureExtraction

  datatype Evidence = Evidence(id: string, revision: string)

  /** The default extractor, version and configuration of the settings. */
  datatype Defaults = Defaults(extractor: string, version: string, config: string)

  /** What a candidate identity hashes. */
  datatype Identity = Identity(revision: string, ids: Defaults, kind: Kind, text: string, ordinal: nat)

  datatype Typed = Typed(identity: Identity, confidence: real, fields: map<string, string>)

  datatype MemoryCandidate = MemoryCandidate(text: string, source: string, confidence: real)

  datatype Store = Store(memories: seq<MemoryCandidate>, typed: seq<Typed>)

  // ----- the legacy path

  function Created(s: Store, ev: Evidence, ids: Defaults, d: Draft, ordinal: nat): Store {
    if d.kind.Memory? then s.(memories := s.memories + [MemoryCandidate(d.text, ev.id, d.confidence)])
    else s.(typed := s.typed + [Typed(Identity(ev.revision, ids, d.kind, d.text, ordinal), d.confidence, d.fields)])
  }

  /** Candidates for the drafts of requested kinds among the first `n`. */
  function CreatedFor(s: Store, ev: Evidence, ids: Defaults, drafts: seq<Draft>, facets: seq<string>, n: nat): Store
    requires n <= |drafts|
  {
    if n == 0 then s
    else
      var before := CreatedFor(s, ev, ids, drafts, facets, n - 1);
      if Requested(facets, drafts[n - 1].kind) then Created(before, ev, ids, drafts[n - 1], n - 1) else before
  }

  const ALL_FACETS := ["activity.memory", "activity.preference", "activity.task", "activity.profile",
                       "activity.skill", "activity.eval"]

  lemma AllRequested(kind: Kind)
    ensures Requested(ALL_FACETS, kind)
  {
    FacetsInvert(kind);
    var i := match kind
             case Memory => 0 case Preference => 1 case Task => 2
             case Profile => 3 case Skill => 4 case Eval => 5;
    assert ALL_FACETS[i] == FacetOf(kind);
  }

  // ----- the projector

  predicate HasMemory(s: Store, text: string, source: string) {
    exists i :: 0 <= i < |s.memories| && s.memories[i].text == text && s.memories[i].source == source
  }

  predicate HasTyped(s: Store, identity: Identity) {
    exists i :: 0 <= i < |s.typed| && s.typed[i].identity == identity
  }

  function IdentityOf(ev: Evidence, ids: Defaults, a: Annotation): Identity {
    Identity(ev.revision, ids, a.kind, a.text, a.ordinal)
  }

  predicate Held(s: Store, ev: Evidence, ids: Defaults, a: Annotation) {
    if a.kind.Memory? then HasMemory(s, a.text, ev.id) else HasTyped(s, IdentityOf(ev, ids, a))
  }

  /** An annotation mints its candidate unless its text is empty or the candidate is there. */
  function Projected(s: Store, ev: Evidence, ids: Defaults, a: Annotation): Store {
    if a.text == "" || Held(s, ev, ids, a) then s
    else Created(s, ev, ids, Draft(a.kind, a.text, a.confidence, a.fields), a.ordinal)
  }

  /** An annotation mints one candidate unless it is empty, or a memory of its text and evidence, or a
      typed candidate of its whole identity, is there. */
  lemma MintsIff(s: Store, ev: Evidence, ids: Defaults, a: Annotation)
    ensures var t := Projected(s, ev, ids, a);
            && s.memories <= t.memories && s.typed <= t.typed
            && (|t.memories| == |s.memories| + 1 <==>
                  a.kind == Memory && a.text != "" &&
                  forall c :: c in s.memories ==> c.text != a.text || c.source != ev.id)
            && (|t.typed| == |s.typed| + 1 <==>
                  a.kind != Memory && a.text != "" &&
                  forall c :: c in s.typed ==> c.identity != Identity(ev.revision, ids, a.kind, a.text, a.ordinal))
            && |t.memories| + |t.typed| <= |s.memories| + |s.typed| + 1
  {
    assert HasMemory(s, a.text, ev.id) <==> exists c :: c in s.memories && c.text == a.text && c.source == ev.id;
    assert HasTyped(s, IdentityOf(ev, ids, a)) <==> exists c :: c in s.typed && c.identity == IdentityOf(ev, ids, a);
  }

  function ProjectedAll(s: Store, ev: Evidence, ids: Defaults, out: seq<Annotation>, n: nat): Store
    requires n <= |out|
  {
    if n == 0 then s else Projected(ProjectedAll(s, ev, ids, out, n - 1), ev, ids, out[n - 1])
  }

  // ----- nothing new over what is already there

  ghost predicate Extends(s: Store, t: Store) {
    s.memories <= t.memories && s.typed <= t.typed
  }

  lemma HeldStays(s: Store, t: Store, ev: Evidence, ids: Defaults, a: Annotation)
    requires Extends(s, t) && Held(s, ev, ids, a)
    ensures Held(t, ev, ids, a)
  {
    if a.kind.Memory? {
      var i :| 0 <= i < |s.memories| && s.memories[i].text == a.text && s.memories[i].source == ev.id;
      assert t.memories[i] == s.memories[i];
    } else {
      var i :| 0 <= i < |s.typed| && s.typed[i].identity == IdentityOf(ev, ids, a);
      assert t.typed[i] == s.typed[i];
    }
  }

  lemma {:induction false} AllHeld(s: Store, ev: Evidence, ids: Defaults, out: seq<Annotation>, n: nat)
    requires n <= |out| && forall k :: 0 <= k < |out| ==> Held(s, ev, ids, out[k])
    ensures ProjectedAll(s, ev, ids, out, n) == s
  {
    if n == 0 {
    } else {
      AllHeld(s, ev, ids, out, n - 1);
    }
  }

  lemma {:induction false} CreatedForExtends(s: Store, ev: Evidence, ids: Defaults, drafts: seq<Draft>,
                                             facets: seq<string>, n: nat, m: nat)
    requires n <= m <= |drafts|
    ensures Extends(CreatedFor(s, ev, ids, drafts, facets, n), CreatedFor(s, ev, ids, drafts, facets, m))
  {
    if n == m {
    } else {
      CreatedForExtends(s, ev, ids, drafts, facets, n, m - 1);
    }
  }

  lemma CreatedHolds(s: Store, ev: Evidence, ids: Defaults, d: Draft, a: Annotation)
    requires Carries(a, d, a.ordinal)
    ensures Held(Created(s, ev, ids, d, a.ordinal), ev, ids, a)
  {
    var t := Created(s, ev, ids, d, a.ordinal);
    if a.kind.Memory? {
      assert t.memories[|s.memories|].text == a.text;
    } else {
      assert t.typed[|s.typed|].identity == IdentityOf(ev, ids, a);
    }
  }

  lemma DraftHeld(s: Store, t: Store, ev: Evidence, ids: Defaults, drafts: seq<Draft>, i: nat, a: Annotation)
    requires Extends(CreatedFor(s, ev, ids, drafts, ALL_FACETS, |drafts|), t)
    requires i < |drafts| && Carries(a, drafts[i], i)
    ensures Held(t, ev, ids, a)
  {
    var before := CreatedFor(s, ev, ids, drafts, ALL_FACETS, i);
    var after := CreatedFor(s, ev, ids, drafts, ALL_FACETS, i + 1);
    AllRequested(drafts[i].kind);
    CreatedHolds(before, ev, ids, drafts[i], a);
    CreatedForExtends(s, ev, ids, drafts, ALL_FACETS, i + 1, |drafts|);
    HeldStays(after, CreatedFor(s, ev, ids, drafts, ALL_FACETS, |drafts|), ev, ids, a);
    HeldStays(CreatedFor(s, ev, ids, drafts, ALL_FACETS, |drafts|), t, ev, ids, a);
  }

  /** Projecting the annotations of any facets over evidence the legacy path has extracted
      with the default ids, however the store has grown since, creates no candidate. */
  lemma MigrationCreatesNothing(s: Store, t: Store, ev: Evidence, ids: Defaults, drafts: seq<Draft>,
                                facets: seq<string>, out: seq<Annotation>)
    requires Extends(CreatedFor(s, ev, ids, drafts, ALL_FACETS, |drafts|), t)
    requires Parity(drafts, facets, |drafts|, out)
    ensures ProjectedAll(t, ev, ids, out, |out|) == t
  {
    forall k | 0 <= k < |out| ensures Held(t, ev, ids, out[k]) {
      DraftHeld(s, t, ev, ids, drafts, Ordinals(drafts, facets, |drafts|)[k], out[k]);
    }
    AllHeld(t, ev, ids, out, |out|);
  }

  // ----- over fresh evidence the two paths write the same candidates

  /** No candidate of this evidence yet. */
  ghost predicate Untouched(s: Store, ev: Evidence) {
    && (forall i :: 0 <= i < |s.memories| ==> s.memories[i].source != ev.id)
    && (forall i :: 0 <= i < |s.typed| ==> s.typed[i].identity.revision != ev.revision)
  }

  ghost predicate OrdinalsBelow(t: Store, ev: Evidence, n: nat) {
    forall c :: c in t.typed && c.identity.revision == ev.revision ==> c.identity.ordinal < n
  }

  lemma {:induction false} CreatedForFresh(s: Store, ev: Evidence, ids: Defaults, drafts: seq<Draft>,
                                           facets: seq<string>, n: nat)
    requires n <= |drafts| && Untouched(s, ev)
    ensures OrdinalsBelow(CreatedFor(s, ev, ids, drafts, facets, n), ev, n)
  {
    if n == 0 {
    } else {
      CreatedForFresh(s, ev, ids, drafts, facets, n - 1);
    }
  }

  lemma FreshStep(s: Store, ev: Evidence, ids: Defaults, d: Draft, a: Annotation, ordinal: nat)
    requires Carries(a, d, ordinal) && a.text != ""
    requires d.kind.Memory? ==> !HasMemory(s, d.text, ev.id)
    requires OrdinalsBelow(s, ev, ordinal)
    ensures Projected(s, ev, ids, a) == Created(s, ev, ids, d, ordinal)
  {
    assert forall i :: 0 <= i < |s.typed| ==> s.typed[i] in s.typed;
  }

  /** The last draft and its annotation write the same candidate. */
  lemma LastCreates(s: Store, t: Store, ev: Evidence, ids: Defaults, drafts: seq<Draft>, facets: seq<string>, n: nat,
                    a: Annotation)
    requires 0 < n <= |drafts| && Untouched(s, ev) && t == CreatedFor(s, ev, ids, drafts, facets, n - 1)
    requires Carries(a, drafts[n - 1], n - 1) && drafts[n - 1].text != "" && (n > 1 ==> drafts[n - 1].kind != Memory)
    ensures Projected(t, ev, ids, a) == Created(t, ev, ids, drafts[n - 1], n - 1)
  {
    CreatedForFresh(s, ev, ids, drafts, facets, n - 1);
    FreshStep(t, ev, ids, drafts[n - 1], a, n - 1);
  }

  lemma CreatesOneMore(s: Store, ev: Evidence, ids: Defaults, drafts: seq<Draft>, facets: seq<string>,
                       out: seq<Annotation>, n: nat)
    requires 0 < n <= |drafts| && Untouched(s, ev) && Requested(facets, drafts[n - 1].kind)
    requires out != [] && Carries(out[|out| - 1], drafts[n - 1], n - 1)
    requires drafts[n - 1].text != "" && (n > 1 ==> drafts[n - 1].kind != Memory)
    requires ProjectedAll(s, ev, ids, out[..|out| - 1], |out| - 1) == CreatedFor(s, ev, ids, drafts, facets, n - 1)
    ensures ProjectedAll(s, ev, ids, out, |out|) == CreatedFor(s, ev, ids, drafts, facets, n)
  {
    SamePrefix(s, ev, ids, out, |out| - 1);
    LastCreates(s, CreatedFor(s, ev, ids, drafts, facets, n - 1), ev, ids, drafts, facets, n, out[|out| - 1]);
  }

  lemma {:induction false} ProjectionCreates(s: Store, ev: Evidence, ids: Defaults, drafts: seq<Draft>,
                                             facets: seq<string>, out: seq<Annotation>, n: nat)
    requires n <= |drafts| && Untouched(s, ev) && Parity(drafts, facets, n, out)
    requires forall i :: 1 <= i < |drafts| ==> drafts[i].kind != Memory
    requires forall i :: 0 <= i < |drafts| ==> drafts[i].text != ""
    ensures ProjectedAll(s, ev, ids, out, |out|) == CreatedFor(s, ev, ids, drafts, facets, n)
  {
    if n == 0 {
    } else if Requested(facets, drafts[n - 1].kind) {
      ParityInit(drafts, facets, n, out);
      ProjectionCreates(s, ev, ids, drafts, facets, out[..|out| - 1], n - 1);
      CreatesOneMore(s, ev, ids, drafts, facets, out, n);
    } else {
      ParityLess(drafts, facets, n, out);
      ProjectionCreates(s, ev, ids, drafts, facets, out, n - 1);
    }
  }

  lemma ParityLess(drafts: seq<Draft>, facets: seq<string>, n: nat, out: seq<Annotation>)
    requires 0 < n <= |drafts| && Parity(drafts, facets, n, out) && !Requested(facets, drafts[n - 1].kind)
    ensures Parity(drafts, facets, n - 1, out)
  {
    assert Ordinals(drafts, facets, n) == Ordinals(drafts, facets, n - 1) + [];
  }

  lemma ParityInit(drafts: seq<Draft>, facets: seq<string>, n: nat, out: seq<Annotation>)
    requires 0 < n <= |drafts| && Parity(drafts, facets, n, out) && Requested(facets, drafts[n - 1].kind)
    ensures out != [] && Parity(drafts, facets, n - 1, out[..|out| - 1]) &&
            Carries(out[|out| - 1], drafts[n - 1], n - 1)
  {
    assert Ordinals(drafts, facets, n) == Ordinals(drafts, facets, n - 1) + [n - 1];
  }

  lemma {:induction false} SamePrefix(s: Store, ev: Evidence, ids: Defaults, out: seq<Annotation>, n: nat)
    requires n <= |out|
    ensures ProjectedAll(s, ev, ids, out[..n], n) == ProjectedAll(s, ev, ids, out, n)
  {
    SamePrefixUpTo(s, ev, ids, out, n, n);
  }

  lemma {:induction false} SamePrefixUpTo(s: Store, ev: Evidence, ids: Defaults, out: seq<Annotation>, n: nat, k: nat)
    requires k <= n <= |out|
    ensures ProjectedAll(s, ev, ids, out[..n], k) == ProjectedAll(s, ev, ids, out, k)
  {
    if k == 0 {
    } else {
      SamePrefixUpTo(s, ev, ids, out, n, k - 1);
    }
  }

  /** Over evidence nothing has touched, projecting the annotations of any facets writes the very
      candidates the legacy path would for their kinds, in the same order. */
  lemma PathsAgree(s: Store, ev: Evidence, ids: Defaults, rules: Rules, content: string, limit: nat, max: int,
                   facets: seq<string>, out: seq<Annotation>)
    requires limit > 0 && Untouched(s, ev)
    requires Parity(LegacyDrafts(rules, content, limit, max), facets, |LegacyDrafts(rules, content, limit, max)|, out)
    ensures var drafts := LegacyDrafts(rules, content, limit, max);
            ProjectedAll(s, ev, ids, out, |out|) == CreatedFor(s, ev, ids, drafts, facets, |drafts|)
  {
    var drafts := LegacyDrafts(rules, content, limit, max);
    DraftsVisible(rules, content, limit, max);
    var found := Found(rules, AllCleanLines(content, limit));
    MemoryIsFirst(rules, AllCleanLines(content, limit), |found|);
    ProjectionCreates(s, ev, ids, drafts, facets, out, |drafts|);
  }

  /** Projecting the same annotations again changes nothing, from any store. */
  lemma ProjectionIdempotent(s: Store, ev: Evidence, ids: Defaults, out: seq<Annotation>)
    requires forall k :: 0 <= k < |out| ==> out[k].text != ""
    ensures var t := ProjectedAll(s, ev, ids, out, |out|); ProjectedAll(t, ev, ids, out, |out|) == t
  {
    forall k | 0 <= k < |out| ensures Held(ProjectedAll(s, ev, ids, out, |out|), ev, ids, out[k]) {
      HeldAfter(s, ev, ids, out, |out|, k);
    }
    AllHeld(ProjectedAll(s, ev, ids, out, |out|), ev, ids, out, |out|);
  }

  lemma {:induction false} HeldAfter(s: Store, ev: Evidence, ids: Defaults, out: seq<Annotation>, n: nat, k: nat)
    requires k < n <= |out| && out[k].text != ""
    ensures Held(ProjectedAll(s, ev, ids, out, n), ev, ids, out[k])
    decreases n
  {
    var before, a := ProjectedAll(s, ev, ids, out, n - 1), out[n - 1];
    var after := Projected(before, ev, ids, a);
    assert Extends(before, after);
    if k == n - 1 {
      if after != before {
        var d := Draft(a.kind, a.text, a.confidence, a.fields);
        CreatedHolds(before, ev, ids, d, a.(facet := FacetOf(a.kind)));
      }
    } else {
      HeldAfter(s, ev, ids, out, n - 1, k);
      HeldStays(before, after, ev, ids, out[k]);
    }
  }

  // ----- the behaviors

  class CandidateStore {
    const ids: Defaults
    var memories: seq<MemoryCandidate>
    var typed: seq<Typed>

    function Value(): Store
      reads this
    {
      Store(memories, typed)
    }

    constructor (ids: Defaults)
      ensures this.ids == ids && Value() == Store([], [])
    {
      this.ids, memories, typed := ids, [], [];
    }

    /** The candidate loop of an extraction run with the default ids. */
    method CreateCandidates(ev: Evidence, drafts: seq<Draft>)
      modifies this
      ensures Value() == CreatedFor(old(Value()), ev, ids, drafts, ALL_FACETS, |drafts|)
    {
      for ordinal := 0 to |drafts|
        invariant Value() == CreatedFor(old(Value()), ev, ids, drafts, ALL_FACETS, ordinal)
      {
        var d := drafts[ordinal];
        AllRequested(d.kind);
        if d.kind.Memory? {
          memories := memories + [MemoryCandidate(d.text, ev.id, d.confidence)];
        } else {
          typed := typed + [Typed(Identity(ev.revision, ids, d.kind, d.text, ordinal), d.confidence, d.fields)];
        }
      }
    }

    /** One semantic_annotation event. */
    method ProjectStructureCandidates(ev: Evidence, a: Annotation)
      modifies this
      ensures Value() == Projected(old(Value()), ev, ids, a)
    {
      if a.text == "" { return; }
      if a.kind.Memory? {
        for i := 0 to |memories|
          invariant forall k :: 0 <= k < i ==> !(memories[k].text == a.text && memories[k].source == ev.id)
        {
          if memories[i].text == a.text && memories[i].source == ev.id { return; }
        }
        memories := memories + [MemoryCandidate(a.text, ev.id, a.confidence)];
        return;
      }
      var identity := IdentityOf(ev, ids, a);
      for i := 0 to |typed|
        invariant forall k :: 0 <= k < i ==> typed[k].identity != identity
      {
        if typed[i].identity == identity { return; }
      }
      typed := typed + [Typed(identity, a.confidence, a.fields)];
    }
  }
}
