/** The source trust projector: an outcome event is one piece of evidence on each source its
    context names (packs/attention/behaviors.py). */
module TrustVectors {
  import opened AttentionScores
  import opened E = EvidenceFold
  import Outcomes
  import opened Prelude

  datatype Source = Source(ref: string, domain: string, scope: string)

  /** The source context of an outcome: a list of sources, or the fields of a single one. */
  datatype Context =
    | Listed(rows: seq<Source>)
    | Single(ref: string, surface: string, domain: string, category: string, scope: string)

  datatype Event = Event(id: string, kind: Outcomes.Kind, context: Context)

  datatype Scored = Scored(evidence: Vector, score: nat, confidence: nat, verdict: Verdict)

  type Vectors = map<Key, Scored>

  function Weight(kind: Outcomes.Kind): (Feature, int) {
    match kind
    case Helped => (Feature.Helped, 1_000)
    case Hurt => (Feature.Hurt, -1_000)
    case Contradicted => (Feature.Contradicted, -1_000)
    case Stale => (Feature.Stale, -600)
    case Neutral => (Feature.Neutral, 0)
    case Superseded => (Feature.Superseded, 0)
  }

  function Named(rows: seq<Source>): seq<Source> {
    if rows == [] then []
    else Named(rows[..|rows| - 1]) + if rows[|rows| - 1].ref != "" then [rows[|rows| - 1]] else []
  }

  function Sources(c: Context): seq<Source> {
    match c
    case Listed(rows) => Named(rows)
    case Single(ref, surface, domain, category, scope) =>
      if Or(ref, surface) == "" then []
        else [Source(Or(ref, surface), Or(Or(domain, category), "general"), Or(scope, "general"))]
  }

  function KeyOf(s: Source): Key { Trust(s.ref, Or(s.domain, "general"), Or(s.scope, "general")) }

  function PieceOf(e: Event, s: Source): Piece {
    var w := Weight(e.kind);
    Piece(e.id, KeyOf(s), w.0, if w.1 > 0 then w.1 else 0, if w.1 < 0 then -w.1 else 0)
  }

  // ----- whom an outcome names, and what it says of them

  /** A listed source counts unless it has no reference; a single one is named by its reference, else by
      its surface. */
  lemma {:induction false} SourcesIff(rows: seq<Source>, s: Source)
    ensures s in Sources(Listed(rows)) <==> s in rows && s.ref != ""
  {
    if rows == [] {
    } else {
      assert rows == rows[..|rows| - 1] + [rows[|rows| - 1]];
      SourcesIff(rows[..|rows| - 1], s);
    }
  }

  lemma SingleSource(ref: string, surface: string, domain: string, category: string, scope: string)
    ensures var sources := Sources(Single(ref, surface, domain, category, scope));
            && (ref == "" && surface == "" ==> sources == [])
            && (ref != "" || surface != "" ==>
                  && |sources| == 1 && sources[0].ref == (if ref != "" then ref else surface)
                  && sources[0].domain ==
                       (if domain != "" then domain else if category != "" then category else "general")
                  && sources[0].scope == if scope != "" then scope else "general")
  {
  }

  /** An outcome that the artifact helped supports its source by 1000; hurt and contradicted challenge it
      by 1000, stale by 600; the others say nothing. */
  lemma PieceMeans(e: Event, s: Source)
    ensures var p := PieceOf(e, s);
            && p.id == e.id && p.supports == (if e.kind == Outcomes.Helped then 1_000 else 0)
            && p.opposes == (match e.kind
                             case Hurt => 1_000 case Contradicted => 1_000 case Stale => 600 case _ => 0)
            && p.key == Trust(s.ref, if s.domain != "" then s.domain else "general",
                              if s.scope != "" then s.scope else "general")
            && p.feature == match e.kind
                            case Helped => Feature.Helped
                            case Hurt => Feature.Hurt
                            case Contradicted => Feature.Contradicted
                            case Stale => Feature.Stale
                            case Neutral => Feature.Neutral
                            case Superseded => Feature.Superseded
  {
  }

  /** A helpful outcome never lowers a source's score, any other never raises it. */
  lemma OutcomeMovesScore(vs: Vectors, e: Event, s: Source)
    requires KeyOf(s) in vs && vs[KeyOf(s)] == ScoreOf(vs[KeyOf(s)].evidence)
    ensures var before, after := vs[KeyOf(s)], Noted(vs, PieceOf(e, s))[KeyOf(s)];
            if e.kind == Outcomes.Helped then after.score >= before.score else after.score <= before.score
  {
    var v, p := vs[KeyOf(s)].evidence, PieceOf(e, s);
    if p.id !in v.ids {
      SupportRaises(v.support, v.support + p.supports, v.oppose);
      OppositionLowers(v.support, v.oppose, v.oppose + p.opposes);
    }
  }

  function ScoreOf(v: Vector): Scored {
    var s := TrustScore(v.support, v.oppose);
    Scored(v, s.0, s.1, s.2)
  }

  function EvidenceOf(vs: Vectors, key: Key): Vector { if key in vs then vs[key].evidence else E.NONE }

  function Noted(vs: Vectors, p: Piece): Vectors {
    var v := EvidenceOf(vs, p.key);
    if p.id in v.ids then vs else vs[p.key := ScoreOf(Updated(v, p))]
  }

  /** The first `n` sources of an event. */
  function NotedUpTo(vs: Vectors, e: Event, n: nat): Vectors
    requires n <= |Sources(e.context)|
  {
    if n == 0 then vs else Noted(NotedUpTo(vs, e, n - 1), PieceOf(e, Sources(e.context)[n - 1]))
  }

  function VectorsAfter(run: seq<Event>): Vectors {
    if run == [] then map[]
    else NotedUpTo(VectorsAfter(run[..|run| - 1]), run[|run| - 1], |Sources(run[|run| - 1].context)|)
  }

  function PiecesUpTo(e: Event, n: nat): seq<Piece>
    requires n <= |Sources(e.context)|
  {
    if n == 0 then [] else PiecesUpTo(e, n - 1) + [PieceOf(e, Sources(e.context)[n - 1])]
  }

  function Pieces(run: seq<Event>): seq<Piece> {
    if run == [] then []
    else Pieces(run[..|run| - 1]) + PiecesUpTo(run[|run| - 1], |Sources(run[|run| - 1].context)|)
  }

  // ----- the projector is the fold, scored

  ghost predicate ScoresFold(vs: Vectors, fold: E.Vectors) {
    && (forall key :: key in vs <==> key in fold)
    && forall key :: key in vs ==> vs[key] == ScoreOf(fold[key]) && fold[key].ids != []
  }

  lemma NotedScores(vs: Vectors, fold: E.Vectors, p: Piece)
    requires ScoresFold(vs, fold)
    ensures ScoresFold(Noted(vs, p), E.Projected(fold, p))
  {
    assert EvidenceOf(vs, p.key) == E.Prior(fold, p.key);
  }

  lemma PieceAdded(before: seq<Piece>, e: Event, n: nat, p: Piece)
    requires 0 < n <= |Sources(e.context)| && p == PieceOf(e, Sources(e.context)[n - 1])
    ensures E.After(before + PiecesUpTo(e, n)) == E.Projected(E.After(before + PiecesUpTo(e, n - 1)), p)
  {
    assert before + PiecesUpTo(e, n) == before + PiecesUpTo(e, n - 1) + [p];
    AfterAppend(before + PiecesUpTo(e, n - 1), p);
  }

  lemma {:induction false} EventScores(vs: Vectors, before: seq<Piece>, e: Event, n: nat)
    requires n <= |Sources(e.context)| && ScoresFold(vs, E.After(before))
    ensures ScoresFold(NotedUpTo(vs, e, n), E.After(before + PiecesUpTo(e, n)))
  {
    if n == 0 {
      assert before + [] == before;
    } else {
      var p := PieceOf(e, Sources(e.context)[n - 1]);
      EventScores(vs, before, e, n - 1);
      NotedScores(NotedUpTo(vs, e, n - 1), E.After(before + PiecesUpTo(e, n - 1)), p);
      PieceAdded(before, e, n, p);
    }
  }

  lemma {:induction false} AfterScores(run: seq<Event>)
    ensures ScoresFold(VectorsAfter(run), E.After(Pieces(run)))
  {
    if run == [] {
    } else {
      var init, e := run[..|run| - 1], run[|run| - 1];
      AfterScores(init);
      EventScores(VectorsAfter(init), Pieces(init), e, |Sources(e.context)|);
    }
  }

  ghost predicate OneEventPerId(run: seq<Event>) {
    forall e, f :: e in run && f in run && e.id == f.id ==> e == f
  }

  /** The event gives this piece: it names the piece's source. */
  ghost predicate Gives(e: Event, p: Piece) { exists s :: s in Sources(e.context) && PieceOf(e, s) == p }

  lemma {:induction false} PiecesOfEvent(e: Event, n: nat, p: Piece)
    requires n <= |Sources(e.context)|
    ensures p in PiecesUpTo(e, n) <==> exists i :: 0 <= i < n && PieceOf(e, Sources(e.context)[i]) == p
  {
    if n == 0 {
    } else {
      PiecesOfEvent(e, n - 1, p);
    }
  }

  lemma {:induction false} PiecesOf(run: seq<Event>, p: Piece)
    ensures p in Pieces(run) <==> exists e :: e in run && Gives(e, p)
  {
    if run == [] {
    } else {
      var init, e := run[..|run| - 1], run[|run| - 1];
      assert run == init + [e];
      PiecesOf(init, p);
      PiecesOfEvent(e, |Sources(e.context)|, p);
      assert Gives(e, p) <==> p in PiecesUpTo(e, |Sources(e.context)|) by {
        if s :| s in Sources(e.context) && PieceOf(e, s) == p {
          var i :| 0 <= i < |Sources(e.context)| && Sources(e.context)[i] == s;
        }
      }
      assert e in run;
    }
  }

  lemma PiecesNamed(run: seq<Event>)
    requires OneEventPerId(run)
    ensures OnePiecePerId(Pieces(run))
  {
    var ps := Pieces(run);
    forall i, j | 0 <= i < |ps| && 0 <= j < |ps| && ps[i].id == ps[j].id && ps[i].key == ps[j].key
      ensures ps[i] == ps[j]
    {
      PiecesOf(run, ps[i]);
      PiecesOf(run, ps[j]);
    }
  }

  /** Over every run a source's vector is the scored fold of the distinct events that name it: an
      event counts once, however often it is delivered and however often its context repeats the
      source. The vector exists exactly when there is such an event. */
  lemma VectorIsFold(run: seq<Event>, key: Key)
    requires OneEventPerId(run)
    ensures key in VectorsAfter(run) <==> exists e, p :: e in run && Gives(e, p) && p.key == key
    ensures key in VectorsAfter(run) ==>
              var v := VectorsAfter(run)[key];
              v == ScoreOf(v.evidence) && IsFoldOf(v.evidence, Observed(Pieces(run), key))
  {
    AfterScores(run);
    PiecesNamed(run);
    E.VectorIsFold(Pieces(run), key);
    ObservedIff(run, key);
  }

  lemma ObservedIff(run: seq<Event>, key: Key)
    ensures Observed(Pieces(run), key) != {} <==> exists e, p :: e in run && Gives(e, p) && p.key == key
  {
    if e, p :| e in run && Gives(e, p) && p.key == key {
      PiecesOf(run, p);
      assert p in Observed(Pieces(run), key);
    }
    if p :| p in Observed(Pieces(run), key) { PiecesOf(run, p); }
  }

  /** Reordering and repeating events changes no vector. */
  lemma OrderAndRepetitionIrrelevant(run: seq<Event>, other: seq<Event>, key: Key)
    requires OneEventPerId(run) && forall e :: e in run <==> e in other
    ensures key in VectorsAfter(run) <==> key in VectorsAfter(other)
    ensures key in VectorsAfter(run) ==>
              var v, w := VectorsAfter(run)[key], VectorsAfter(other)[key];
              SameReading(v.evidence, w.evidence) && (v.score, v.confidence, v.verdict) ==
                  (w.score, w.confidence, w.verdict)
  {
    AfterScores(run);
    AfterScores(other);
    PiecesNamed(run);
    PiecesNamed(other);
    forall p ensures p in Pieces(run) <==> p in Pieces(other) {
      PiecesOf(run, p);
      PiecesOf(other, p);
    }
    E.OrderAndRepetitionIrrelevant(Pieces(run), Pieces(other), key);
  }

  // ----- the behavior

  class Projector {
    var vectors: Vectors

    constructor ()
      ensures vectors == VectorsAfter([])
    {
      vectors := map[];
    }

    method SourceTrustVectorProjector(e: Event)
      modifies this
      ensures vectors == NotedUpTo(old(vectors), e, |Sources(e.context)|)
    {
      var sources := Sources(e.context);
      for i := 0 to |sources|
        invariant vectors == NotedUpTo(old(vectors), e, i)
      {
        Note(e, sources[i]);
      }
    }

    /** One source; an event already in the vector is skipped. */
    method Note(e: Event, s: Source)
      modifies this
      ensures vectors == Noted(old(vectors), PieceOf(e, s))
    {
      var key, feature, weight := KeyOf(s), Weight(e.kind).0, Weight(e.kind).1;
      var prior := EvidenceOf(vectors, key);
      if e.id in prior.ids { return; }
      var support, challenge := prior.support, prior.oppose;
      if weight > 0 {
        support := support + weight;
      } else if weight < 0 {
        challenge := challenge + Abs(weight);
      }
      var features := prior.features[feature := Get(prior.features, feature) + Abs(weight)];
      vectors := vectors[key := ScoreOf(Vector(support, challenge, features, prior.ids + [e.id]))];
    }
  }
}
