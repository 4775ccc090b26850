/** The compatibility projector beside the disabling of extractor versions: it never asks whether the
    version whose identity it writes is disabled (packs/activity_normalizer/behaviors.py and tools.py). */
module DisabledProjection {
  import opened Kinds
  import opened Prelude
  import L = ExtractionLifecycle
  import P = CandidateProjection
  import S = StructureExtraction

  /** What tells one candidate from another: a memory candidate by text and source, any other by
      the identity it carries. */
  datatype What = MemoryOf(text: string, source: string) | TypedOf(identity: P.Identity)

  /** The graph of the lifecycle, and what each of its candidates is. */
  datatype World = World(graph: L.Graph, what: seq<What>)

  const EMPTY := World(L.EMPTY, [])

  function WhatOf(kind: Kind, text: string, ordinal: nat, ev: P.Evidence, ids: P.Defaults): What {
    if kind.Memory? then MemoryOf(text, ev.id) else TypedOf(P.Identity(ev.revision, ids, kind, text, ordinal))
  }

  function WhatsOf(drafts: seq<S.Draft>, ev: P.Evidence, ids: P.Defaults): seq<What> {
    seq(|drafts|, i requires 0 <= i < |drafts| => WhatOf(drafts[i].kind, drafts[i].text, i, ev, ids))
  }

  function KindsOf(drafts: seq<S.Draft>): seq<Kind> {
    seq(|drafts|, i requires 0 <= i < |drafts| => drafts[i].kind)
  }

  datatype Op =
    | Extract(ev: P.Evidence, ids: P.Defaults, drafts: Option<seq<S.Draft>>)
    | Switch(disable: L.Disable)
    | Project(source: P.Evidence, defaults: P.Defaults, annotation: S.Annotation)

  function KeyOf(ev: P.Evidence, ids: P.Defaults): L.Key { L.Key(ev.revision, ids.extractor, ids.version, ids.config) }

  function Extracted(w: World, ev: P.Evidence, ids: P.Defaults, drafts: Option<seq<S.Draft>>): World {
    var h := L.Extracted(w.graph, KeyOf(ev, ids), if drafts.Some? then Some(KindsOf(drafts.value)) else None);
    World(h, if h == w.graph || drafts.None? then w.what else w.what + WhatsOf(drafts.value, ev, ids))
  }

  function Minted(w: World, ev: P.Evidence, ids: P.Defaults, a: S.Annotation): World {
    var what := WhatOf(a.kind, a.text, a.ordinal, ev, ids);
    if a.text == "" || what in w.what then w
    else World(w.graph.(candidates := w.graph.candidates + [L.Candidate(a.kind, true)]), w.what + [what])
  }

  function Step(w: World, op: Op): World {
    match op
    case Extract(ev, ids, drafts) => Extracted(w, ev, ids, drafts)
    case Switch(d) => w.(graph := L.Disabled(w.graph, d))
    case Project(ev, ids, a) => Minted(w, ev, ids, a)
  }

  function From(w: World, run: seq<Op>): World {
    if run == [] then w else Step(From(w, run[..|run| - 1]), run[|run| - 1])
  }

  // ----- one world

  /** Every candidate is described, and the records list existing candidates. */
  ghost predicate Fits(w: World) {
    && |w.what| == |w.graph.candidates|
    && forall i :: 0 <= i < |w.graph.records| ==> Lists(w, w.graph.records[i])
  }

  ghost predicate Lists(w: World, r: L.Record) { forall c :: c in r.candidates ==> c < |w.graph.candidates| }

  /** Candidates keep their place, their kind and what they are; nothing dead comes alive again. */
  ghost predicate Continues(w: World, h: World) {
    && Fits(h) && w.what <= h.what && |w.graph.candidates| <= |h.graph.candidates|
    && forall c: nat :: c < |w.graph.candidates| ==>
         h.graph.candidates[c].kind == w.graph.candidates[c].kind && (L.Dead(w.graph, c) ==> L.Dead(h.graph, c))
  }

  lemma ExtractedContinues(w: World, ev: P.Evidence, ids: P.Defaults, drafts: Option<seq<S.Draft>>)
    requires Fits(w)
    ensures Continues(w, Extracted(w, ev, ids, drafts))
  {
    var h := Extracted(w, ev, ids, drafts);
    forall i | 0 <= i < |h.graph.records| ensures Lists(h, h.graph.records[i]) {
      if i < |w.graph.records| { assert Lists(w, w.graph.records[i]); }
    }
  }

  lemma DisabledContinues(w: World, d: L.Disable)
    requires Fits(w)
    ensures Continues(w, Step(w, Switch(d)))
  {
    var h := Step(w, Switch(d));
    forall i | 0 <= i < |h.graph.records| ensures Lists(h, h.graph.records[i]) {
      assert Lists(w, w.graph.records[i]);
    }
    forall c: nat | L.Dead(w.graph, c) ensures L.Dead(h.graph, c) { L.DeadStays(w.graph, d, c); }
  }

  lemma MintedContinues(w: World, ev: P.Evidence, ids: P.Defaults, a: S.Annotation)
    requires Fits(w)
    ensures Continues(w, Minted(w, ev, ids, a))
  {
    var h := Minted(w, ev, ids, a);
    forall i | 0 <= i < |h.graph.records| ensures Lists(h, h.graph.records[i]) {
      assert Lists(w, w.graph.records[i]);
    }
  }

  lemma StepContinues(w: World, op: Op)
    requires Fits(w)
    ensures Continues(w, Step(w, op))
  {
    match op
    case Extract(ev, ids, drafts) => ExtractedContinues(w, ev, ids, drafts);
    case Switch(d) => DisabledContinues(w, d);
    case Project(ev, ids, a) => MintedContinues(w, ev, ids, a);
  }

  lemma ContinuesOn(w: World, m: World, h: World)
    requires Continues(w, m) && Continues(m, h)
    ensures Continues(w, h)
  {
  }

  /** However extractions, disables and projections follow one another: no candidate killed by a
      disable is ever revived. */
  lemma {:induction false} NeverRevived(w: World, run: seq<Op>)
    requires Fits(w)
    ensures Continues(w, From(w, run))
  {
    if run == [] {
    } else {
      var m := From(w, run[..|run| - 1]);
      NeverRevived(w, run[..|run| - 1]);
      StepContinues(m, run[|run| - 1]);
      ContinuesOn(w, m, Step(m, run[|run| - 1]));
    }
  }

  // ----- what the projector mints

  /** Nor is it minted again: what a candidate is, dead or alive, no later projection adds. */
  lemma NeverMintedAgain(w: World, run: seq<Op>, c: nat, ev: P.Evidence, ids: P.Defaults, a: S.Annotation)
    requires Fits(w) && c < |w.what| && w.what[c] == WhatOf(a.kind, a.text, a.ordinal, ev, ids)
    ensures Step(From(w, run), Project(ev, ids, a)) == From(w, run)
  {
    NeverRevived(w, run);
    assert From(w, run).what[c] == w.what[c];
  }

  ghost predicate Unlisted(w: World, c: nat) {
    forall i :: 0 <= i < |w.graph.records| ==> c !in w.graph.records[i].candidates
  }

  lemma UnlistedStays(w: World, op: Op, c: nat)
    requires Fits(w) && c < |w.graph.candidates| && Unlisted(w, c)
    ensures Unlisted(Step(w, op), c) && c < |Step(w, op).graph.candidates|
    ensures Step(w, op).graph.candidates[c].open == w.graph.candidates[c].open
  {
    StepContinues(w, op);
  }

  /** A minted candidate belongs to no extraction record, so no disable, before or after, ever
      closes it: candidates under a disabled version's identity stay open. */
  lemma {:induction false} MintedStaysOpen(w: World, ev: P.Evidence, ids: P.Defaults, a: S.Annotation, since: seq<Op>)
    requires Fits(w) && Minted(w, ev, ids, a) != w
    ensures var h, n := From(Minted(w, ev, ids, a), since), |w.graph.candidates|;
            Fits(h) && n < |h.graph.candidates| && h.graph.candidates[n].open && Unlisted(h, n)
    decreases |since|
  {
    var m, n := Minted(w, ev, ids, a), |w.graph.candidates|;
    MintedContinues(w, ev, ids, a);
    if since == [] {
      forall i | 0 <= i < |m.graph.records| ensures n !in m.graph.records[i].candidates {
        assert Lists(w, w.graph.records[i]);
      }
    } else {
      var init, op := since[..|since| - 1], since[|since| - 1];
      MintedStaysOpen(w, ev, ids, a, init);
      StepContinues(From(m, init), op);
      UnlistedStays(From(m, init), op, n);
    }
  }

  // ----- what is open under a disabled version

  function KeyOfIdentity(x: P.Identity): L.Key { L.Key(x.revision, x.ids.extractor, x.ids.version, x.ids.config) }

  /** A typed candidate in a record's list carries the record's own identity. */
  ghost predicate Owns(w: World, r: L.Record) {
    forall c :: c in r.candidates && c < |w.what| && w.what[c].TypedOf? ==> KeyOfIdentity(w.what[c].identity) == r.key
  }

  /** The lifecycle is sound, records list their own candidates, and nothing else was ever closed. */
  ghost predicate Kept(w: World) {
    && Fits(w) && L.Sound(w.graph)
    && (forall i :: 0 <= i < |w.graph.records| ==> Owns(w, w.graph.records[i]))
    && (forall c: nat :: c < |w.graph.candidates| && Unlisted(w, c) ==> w.graph.candidates[c].open)
    && (forall c: nat :: c < |w.what| ==> (w.what[c].TypedOf? <==> !w.graph.candidates[c].kind.Memory?))
  }

  lemma ExtractedKept(w: World, ev: P.Evidence, ids: P.Defaults, drafts: Option<seq<S.Draft>>)
    requires Kept(w)
    ensures Kept(Extracted(w, ev, ids, drafts))
  {
    var h := Extracted(w, ev, ids, drafts);
    ExtractedContinues(w, ev, ids, drafts);
    L.ExtractedSound(w.graph, KeyOf(ev, ids), if drafts.Some? then Some(KindsOf(drafts.value)) else None);
    if h != w { NewRecordKept(w, ev, ids, drafts.value, h); }
  }

  lemma NewRecordKept(w: World, ev: P.Evidence, ids: P.Defaults, drafts: seq<S.Draft>, h: World)
    requires Kept(w) && h.what == w.what + WhatsOf(drafts, ev, ids) &&
             h.graph.candidates == w.graph.candidates + L.Fresh(KindsOf(drafts))
    requires h.graph.records == w.graph.records +
             [L.Record(KeyOf(ev, ids), true, L.Ids(|w.graph.candidates|, |drafts|))]
    ensures forall i :: 0 <= i < |h.graph.records| ==> Owns(h, h.graph.records[i])
    ensures forall c: nat :: c < |h.graph.candidates| && Unlisted(h, c) ==> h.graph.candidates[c].open
    ensures forall c: nat :: c < |h.what| ==> (h.what[c].TypedOf? <==> !h.graph.candidates[c].kind.Memory?)
  {
    forall i | 0 <= i < |h.graph.records| ensures Owns(h, h.graph.records[i]) {
      if i < |w.graph.records| { assert Owns(w, w.graph.records[i]) && Lists(w, w.graph.records[i]); }
    }
    forall c: nat | c < |w.graph.candidates| && Unlisted(h, c) ensures Unlisted(w, c) {
      assert forall i :: 0 <= i < |w.graph.records| ==> w.graph.records[i] == h.graph.records[i];
    }
  }

  lemma SwitchedKept(w: World, d: L.Disable)
    requires Kept(w)
    ensures Kept(Step(w, Switch(d)))
  {
    var h := Step(w, Switch(d));
    DisabledContinues(w, d);
    L.DisabledSound(w.graph, d);
    forall i | 0 <= i < |h.graph.records| ensures Owns(h, h.graph.records[i]) { assert Owns(w, w.graph.records[i]); }
    forall c: nat | c < |h.graph.candidates| && Unlisted(h, c) ensures h.graph.candidates[c].open {
      forall i | 0 <= i < |w.graph.records| ensures c !in w.graph.records[i].candidates {
        assert c !in h.graph.records[i].candidates;
      }
      assert Unlisted(w, c);
    }
  }

  lemma MintedKept(w: World, ev: P.Evidence, ids: P.Defaults, a: S.Annotation)
    requires Kept(w)
    ensures Kept(Minted(w, ev, ids, a))
  {
    var h := Minted(w, ev, ids, a);
    MintedContinues(w, ev, ids, a);
    if h != w {
      forall i | 0 <= i < |h.graph.records| ensures L.RecordSound(h.graph, i) && Owns(h, h.graph.records[i]) {
        assert L.RecordSound(w.graph, i) && Owns(w, w.graph.records[i]) && Lists(w, w.graph.records[i]);
      }
      forall c: nat | c < |w.graph.candidates| && Unlisted(h, c) ensures Unlisted(w, c) {
      }
    }
  }

  lemma StepKept(w: World, op: Op)
    requires Kept(w)
    ensures Kept(Step(w, op))
  {
    match op
    case Extract(ev, ids, drafts) => ExtractedKept(w, ev, ids, drafts);
    case Switch(d) => SwitchedKept(w, d);
    case Project(ev, ids, a) => MintedKept(w, ev, ids, a);
  }

  /** Over every mix of extractions, disables and projections the lifecycle keeps its guarantees. */
  lemma {:induction false} RunKept(run: seq<Op>)
    ensures Kept(From(EMPTY, run))
  {
    if run == [] {
    } else {
      RunKept(run[..|run| - 1]);
      StepKept(From(EMPTY, run[..|run| - 1]), run[|run| - 1]);
    }
  }

  ghost predicate AllRefused(w: World, d: L.Disable) {
    forall key :: L.InScope(d, key) ==> L.DisabledBy(w.graph.states, key)
  }

  lemma RefusedStays(w: World, d: L.Disable, op: Op)
    requires L.Sound(w.graph) && AllRefused(w, d)
    ensures AllRefused(Step(w, op), d)
  {
    forall key | L.InScope(d, key) ensures L.DisabledBy(Step(w, op).graph.states, key) {
      if op.Switch? { L.DisabledStays(w.graph, L.Switch(op.disable), key); }
    }
  }

  lemma {:induction false} RefusedThroughout(before: seq<Op>, d: L.Disable, since: seq<Op>)
    requires d.config != Some("")
    ensures AllRefused(From(EMPTY, before + [Switch(d)] + since), d)
    decreases |since|
  {
    var run := before + [Switch(d)] + since;
    if since == [] {
      assert run[..|run| - 1] == before;
      RunKept(before);
      L.RefusedAll(From(EMPTY, before).graph, d);
    } else {
      var init := since[..|since| - 1];
      assert run[..|run| - 1] == before + [Switch(d)] + init;
      RefusedThroughout(before, d, init);
      RunKept(before + [Switch(d)] + init);
      RefusedStays(From(EMPTY, before + [Switch(d)] + init), d, since[|since| - 1]);
    }
  }

  /** However the run went before and goes on after a disable with a proper scope: a typed candidate
      under a disabled identity is open if and only if no extraction record lists it. */
  lemma OpenIffUnlisted(before: seq<Op>, d: L.Disable, since: seq<Op>, c: nat)
    requires d.config != Some("")
    requires var w := From(EMPTY, before + [Switch(d)] + since);
             c < |w.what| && w.what[c].TypedOf? && L.InScope(d, KeyOfIdentity(w.what[c].identity))
    ensures var w := From(EMPTY, before + [Switch(d)] + since);
            c < |w.graph.candidates| && (w.graph.candidates[c].open <==> Unlisted(w, c))
  {
    var w := From(EMPTY, before + [Switch(d)] + since);
    RunKept(before + [Switch(d)] + since);
    RefusedThroughout(before, d, since);
    L.RetiredNow(w.graph, d);
    if !Unlisted(w, c) {
      var i :| 0 <= i < |w.graph.records| && c in w.graph.records[i].candidates;
      assert Owns(w, w.graph.records[i]);
      assert L.Dead(w.graph, c);
    }
  }

  // ----- the projector is the one of the migration

  function Memories(what: seq<What>): seq<(string, string)> {
    if what == [] then []
    else
      var last := what[|what| - 1];
      Memories(what[..|what| - 1]) + if last.MemoryOf? then [(last.text, last.source)] else []
  }

  function Typeds(what: seq<What>): seq<P.Identity> {
    if what == [] then []
    else
      var last := what[|what| - 1];
      Typeds(what[..|what| - 1]) + if last.TypedOf? then [last.identity] else []
  }

  /** The store holds the same candidates, in the same order. */
  ghost predicate Mirrors(w: World, s: P.Store) {
    && |Memories(w.what)| == |s.memories| && |Typeds(w.what)| == |s.typed|
    && (forall i :: 0 <= i < |s.memories| ==> Memories(w.what)[i] == (s.memories[i].text, s.memories[i].source))
    && (forall i :: 0 <= i < |s.typed| ==> Typeds(w.what)[i] == s.typed[i].identity)
  }

  lemma {:induction false} WhatFound(what: seq<What>, x: What)
    ensures x in what <==> if x.MemoryOf? then (x.text, x.source) in Memories(what) else x.identity in Typeds(what)
  {
    if what == [] {
    } else {
      assert what == what[..|what| - 1] + [what[|what| - 1]];
      WhatFound(what[..|what| - 1], x);
    }
  }

  lemma HeldIsWhat(w: World, s: P.Store, ev: P.Evidence, ids: P.Defaults, a: S.Annotation)
    requires Mirrors(w, s)
    ensures P.Held(s, ev, ids, a) <==> WhatOf(a.kind, a.text, a.ordinal, ev, ids) in w.what
  {
    var x := WhatOf(a.kind, a.text, a.ordinal, ev, ids);
    WhatFound(w.what, x);
    if a.kind.Memory? {
      if i :| 0 <= i < |s.memories| && Memories(w.what)[i] == (a.text, ev.id) { assert s.memories[i].text == a.text; }
    } else {
      if i :| 0 <= i < |s.typed| && Typeds(w.what)[i] == x.identity { assert s.typed[i].identity == x.identity; }
    }
  }

  lemma MintedMirrors(w: World, s: P.Store, ev: P.Evidence, ids: P.Defaults, a: S.Annotation)
    requires Mirrors(w, s)
    ensures Mirrors(Minted(w, ev, ids, a), P.Projected(s, ev, ids, a))
  {
    HeldIsWhat(w, s, ev, ids, a);
    var x := WhatOf(a.kind, a.text, a.ordinal, ev, ids);
    assert (w.what + [x])[..|w.what|] == w.what;
  }

  // ----- a disabled version that still mints

  lemma JustDisabled(ids: P.Defaults) returns (w: World)
    ensures w == From(EMPTY, [Switch(L.Disable(ids.extractor, ids.version, None))])
    ensures w.what == [] && w.graph.candidates == [] && w.graph.records == []
    ensures w.graph.states == [L.VersionState(ids.extractor, ids.version, None, true)]
  {
    var r: seq<Op> := [Switch(L.Disable(ids.extractor, ids.version, None))];
    assert r[..0] == [] && From(EMPTY, r[..0]) == EMPTY;
    w := Step(EMPTY, r[0]);
  }

  /** A version is disabled before anything is extracted; a projection then mints an open candidate
      under its identity, which an extraction with that version could no longer do. */
  lemma DisabledVersionMints(ev: P.Evidence, ids: P.Defaults, a: S.Annotation)
    requires a.text != "" && a.kind != Memory
    ensures var w := From(EMPTY, [Switch(L.Disable(ids.extractor, ids.version, None)), Project(ev, ids, a)]);
            L.DisabledBy(w.graph.states, KeyOf(ev, ids)) && w.graph.candidates == [L.Candidate(a.kind, true)] &&
            w.what == [TypedOf(P.IdentityOf(ev, ids, a))] &&
            forall drafts :: Extracted(w, ev, ids, drafts) == w
  {
    var w := JustDisabled(ids);
    var r: seq<Op> := [Switch(L.Disable(ids.extractor, ids.version, None)), Project(ev, ids, a)];
    assert r[..1] == [Switch(L.Disable(ids.extractor, ids.version, None))];
    var h := Minted(w, ev, ids, a);
    assert From(EMPTY, r) == h;
    assert h.graph.states[|h.graph.states| - 1] == L.VersionState(ids.extractor, ids.version, None, true);
  }
}
