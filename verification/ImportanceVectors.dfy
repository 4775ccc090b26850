/** The importance projector: one attention observation is one piece of evidence
    (packs/attention/behaviors.py). */
module ImportanceVectors {
  import opened Prelude
  import opened AttentionScores
  import opened E = EvidenceFold

  datatype Signal = Impression | Opened | ActiveDwell | Revisited | Created | Edited | Replied | Completed | Dismissed
                  | Archived | ExplicitImportant | ExplicitNotImportant | NonresponseWindow | LlmJudgment | OtherSignal

  /** Strength is in thousandths of a full signal. */
  datatype Observation = Observation(id: string, subject: string, context: string, objective: Option<string>,
                                     horizon: string, signal: Signal, strength: nat, explicit: bool)

  /** The stored vector: its evidence and what the score makes of it. */
  datatype Scored = Scored(evidence: Vector, score: nat, confidence: nat, band: Band)

  type Vectors = map<Key, Scored>

  function Weight(signal: Signal): (Feature, int) {
    match signal
    case Impression => (Opportunity, 0)
    case Opened => (Engagement, 120)
    case ActiveDwell => (Engagement, 300)
    case Revisited => (Recurrence, 220)
    case Created => (OutcomeFeature, 350)
    case Edited => (OutcomeFeature, 400)
    case Replied => (OutcomeFeature, 650)
    case Completed => (OutcomeFeature, 700)
    case Dismissed => (Negative, -700)
    case Archived => (Negative, -250)
    case ExplicitImportant => (Explicit, 1_000)
    case ExplicitNotImportant => (Explicit, -1_000)
    case NonresponseWindow => (Negative, -180)
    case LlmJudgment => (ModelOnly, 0)
    case OtherSignal => (Unknown, 0)
  }

  /** An explicit signal the caller did not mark as the owner's act. */
  predicate Unverified(o: Observation) {
    (o.signal.ExplicitImportant? || o.signal.ExplicitNotImportant?) && !o.explicit
  }

  function Contribution(o: Observation): nat {
    if Unverified(o) then 0 else Abs(Weight(o.signal).1) * o.strength / 1_000
  }

  predicate Counts(o: Observation) { o.id != "" && o.subject != "" }

  /** An empty objective is none; an empty context or horizon is the default one. */
  function KeyOf(o: Observation): Key {
    var objective := if o.objective == Some("") then None else o.objective;
    Importance(o.subject, Or(o.context, "global"), objective, Or(o.horizon, "current"))
  }

  function PieceOf(o: Observation): Piece {
    Piece(o.id, KeyOf(o),
          if Unverified(o) then UnverifiedExplicit else Weight(o.signal).0,
          if Weight(o.signal).1 > 0 then Contribution(o) else 0,
          if Weight(o.signal).1 < 0 then Contribution(o) else 0)
  }

  /** Everything an observation contributes is support or opposition. */
  lemma ContributionSplits(o: Observation)
    ensures PieceOf(o).Total() == Contribution(o)
  {
    if Weight(o.signal).1 == 0 { assert Abs(Weight(o.signal).1) * o.strength == 0; }
  }

  function ScoreOf(v: Vector): Scored {
    var s := ImportanceScore(v.support, v.oppose);
    Scored(v, s.0, s.1, s.2)
  }

  function EvidenceOf(vs: Vectors, key: Key): Vector { if key in vs then vs[key].evidence else E.NONE }

  function Noted(vs: Vectors, o: Observation): Vectors {
    var p := PieceOf(o);
    var v := EvidenceOf(vs, p.key);
    if !Counts(o) || o.id in v.ids then vs else vs[p.key := ScoreOf(Updated(v, p))]
  }

  function VectorsAfter(run: seq<Observation>): Vectors {
    if run == [] then map[] else Noted(VectorsAfter(run[..|run| - 1]), run[|run| - 1])
  }

  function Pieces(run: seq<Observation>): seq<Piece> {
    if run == [] then []
    else Pieces(run[..|run| - 1]) + if Counts(run[|run| - 1]) then [PieceOf(run[|run| - 1])] else []
  }

  // ----- what each signal does

  /** Signals that speak for a subject, with what a full one adds to its support. */
  function Praise(s: Signal): nat {
    match s
    case Opened => 120
    case ActiveDwell => 300
    case Revisited => 220
    case Created => 350
    case Edited => 400
    case Replied => 650
    case Completed => 700
    case ExplicitImportant => 1_000
    case _ => 0
  }

  /** Signals that speak against it. */
  function Blame(s: Signal): nat {
    match s
    case Dismissed => 700
    case Archived => 250
    case NonresponseWindow => 180
    case ExplicitNotImportant => 1_000
    case _ => 0
  }

  /** What kind of evidence a signal is. */
  function Evidence(s: Signal): Feature {
    match s
    case Impression => Opportunity
    case Opened => Engagement
    case ActiveDwell => Engagement
    case Revisited => Recurrence
    case LlmJudgment => ModelOnly
    case ExplicitImportant => Explicit
    case ExplicitNotImportant => Explicit
    case OtherSignal => Unknown
    case _ => if Blame(s) > 0 then Negative else OutcomeFeature
  }

  /** A new observation adds its share of the signal's praise to the support and of its blame to the
      opposition; an explicit signal counts only as the owner's own act. */
  lemma ObservationAdds(vs: Vectors, o: Observation)
    requires Counts(o) && o.id !in EvidenceOf(vs, KeyOf(o)).ids
    ensures var v, w := EvidenceOf(vs, KeyOf(o)), EvidenceOf(Noted(vs, o), KeyOf(o));
            var counted := o.signal !in {ExplicitImportant, ExplicitNotImportant} || o.explicit;
            && w.support == v.support + (if counted then Praise(o.signal) * o.strength / 1_000 else 0)
            && w.oppose == v.oppose + (if counted then Blame(o.signal) * o.strength / 1_000 else 0)
            && w.ids == v.ids + [o.id]
            && var f := if counted then Evidence(o.signal) else UnverifiedExplicit;
               w.features == v.features[f := Get(v.features, f) + (w.support - v.support) + (w.oppose - v.oppose)]
  {
    ContributionSplits(o);
  }

  /** A signal for a subject never lowers its score, a signal against it never raises it. */
  lemma SignalMovesScore(vs: Vectors, o: Observation)
    requires Counts(o) && KeyOf(o) in vs && vs[KeyOf(o)] == ScoreOf(vs[KeyOf(o)].evidence)
    ensures var before, after := vs[KeyOf(o)], Noted(vs, o)[KeyOf(o)];
            && (Blame(o.signal) == 0 ==> after.score >= before.score)
            && (Praise(o.signal) == 0 ==> after.score <= before.score)
  {
    var v := vs[KeyOf(o)].evidence;
    if o.id !in v.ids {
      ObservationAdds(vs, o);
      var w := EvidenceOf(Noted(vs, o), KeyOf(o));
      SupportRaises(v.support, w.support, v.oppose);
      OppositionLowers(v.support, v.oppose, w.oppose);
    }
  }

  /** An observation concerns one vector, of its subject, context, objective and horizon, where an empty
      context is the global one, an empty horizon the current one, and an empty objective none. It
      changes nothing if its id or its subject is empty, or its vector holds it already. */
  lemma ObservedWhere(vs: Vectors, o: Observation, key: Key)
    ensures var mine := Importance(o.subject, if o.context == "" then "global" else o.context,
                                   if o.objective == None || o.objective == Some("") then None else o.objective,
                                   if o.horizon == "" then "current" else o.horizon);
            var next, held := Noted(vs, o), key in vs && o.id in vs[key].evidence.ids;
            && (key != mine || o.id == "" || o.subject == "" || held ==>
                  (key in next <==> key in vs) && (key in vs ==> next[key] == vs[key]))
            && (key == mine && o.id != "" && o.subject != "" ==> key in next && o.id in next[key].evidence.ids)
  {
  }

  // ----- the projector is the fold, scored

  ghost predicate ScoresFold(vs: Vectors, fold: E.Vectors) {
    && (forall key :: key in vs <==> key in fold)
    && forall key :: key in vs ==> vs[key] == ScoreOf(fold[key]) && fold[key].ids != []
  }

  lemma ProjectedScores(vs: Vectors, fold: E.Vectors, o: Observation)
    requires ScoresFold(vs, fold) && Counts(o)
    ensures ScoresFold(Noted(vs, o), E.Projected(fold, PieceOf(o)))
  {
    assert EvidenceOf(vs, PieceOf(o).key) == E.Prior(fold, PieceOf(o).key);
  }

  lemma {:induction false} AfterScores(run: seq<Observation>)
    ensures ScoresFold(VectorsAfter(run), E.After(Pieces(run)))
  {
    if run == [] {
    } else {
      var init, o := run[..|run| - 1], run[|run| - 1];
      AfterScores(init);
      if Counts(o) {
        AfterAppend(Pieces(init), PieceOf(o));
        ProjectedScores(VectorsAfter(init), E.After(Pieces(init)), o);
      } else {
        assert Pieces(run) == Pieces(init);
      }
    }
  }

  /** An observation id names one observation; the recorders refuse a second one. */
  ghost predicate OneObservationPerId(run: seq<Observation>) {
    forall o, p :: o in run && p in run && o.id == p.id ==> o == p
  }

  lemma {:induction false} PiecesOf(run: seq<Observation>, p: Piece)
    ensures p in Pieces(run) <==> exists o :: o in run && Counts(o) && PieceOf(o) == p
  {
    if run == [] {
    } else {
      var init, last := run[..|run| - 1], run[|run| - 1];
      assert run == init + [last];
      PiecesOf(init, p);
      if Counts(last) && PieceOf(last) == p { assert last in run; }
    }
  }

  lemma PiecesNamed(run: seq<Observation>)
    requires OneObservationPerId(run)
    ensures OnePiecePerId(Pieces(run))
  {
    var ps := Pieces(run);
    forall i, j | 0 <= i < |ps| && 0 <= j < |ps| && ps[i].id == ps[j].id ensures ps[i] == ps[j] {
      PiecesOf(run, ps[i]);
      PiecesOf(run, ps[j]);
    }
  }

  /** Over every run each vector is the scored fold of its distinct observations, and exists
      exactly when there is one. */
  lemma VectorIsFold(run: seq<Observation>, key: Key)
    requires OneObservationPerId(run)
    ensures key in VectorsAfter(run) <==> Observed(Pieces(run), key) != {}
    ensures key in VectorsAfter(run) ==>
              VectorsAfter(run)[key] == ScoreOf(VectorsAfter(run)[key].evidence) &&
                  IsFoldOf(VectorsAfter(run)[key].evidence, Observed(Pieces(run), key))
  {
    AfterScores(run);
    PiecesNamed(run);
    E.VectorIsFold(Pieces(run), key);
  }

  /** Reordering and repeating observations changes neither evidence, features, score,
      confidence nor band of any vector. */
  lemma OrderAndRepetitionIrrelevant(run: seq<Observation>, other: seq<Observation>, key: Key)
    requires OneObservationPerId(run) && forall o :: o in run <==> o in other
    ensures key in VectorsAfter(run) <==> key in VectorsAfter(other)
    ensures key in VectorsAfter(run) ==>
              var v, w := VectorsAfter(run)[key], VectorsAfter(other)[key];
              SameReading(v.evidence, w.evidence) && (v.score, v.confidence, v.band) == (w.score, w.confidence, w.band)
  {
    AfterScores(run);
    AfterScores(other);
    PiecesNamed(run);
    PiecesNamed(other);
    forall p ensures p in Pieces(run) <==> p in Pieces(other) {
      PiecesOf(run, p);
      PiecesOf(other, p);
    }
    E.OrderAndRepetitionIrrelevant(Pieces(run), Pieces(other), key);
  }

  /** No vector is kept under an empty context, objective or horizon. */
  lemma {:induction false} KeysFilled(run: seq<Observation>, key: Key)
    requires key in VectorsAfter(run)
    ensures key.Importance? && key.subject != "" && key.context != "" && key.objective != Some("") && key.horizon != ""
  {
    var init, last := run[..|run| - 1], run[|run| - 1];
    if key in VectorsAfter(init) {
      KeysFilled(init, key);
    } else {
      assert key == KeyOf(last) && Counts(last);
    }
  }

  /** In every vector of every run the feature totals add up to the evidence. */
  lemma FeaturesBalance(run: seq<Observation>, key: Key)
    requires key in VectorsAfter(run)
    ensures Balanced(VectorsAfter(run)[key].evidence)
  {
    AfterScores(run);
    E.FeaturesBalance(Pieces(run), key);
  }

  // ----- the behavior

  class Projector {
    var vectors: Vectors

    constructor ()
      ensures vectors == VectorsAfter([])
    {
      vectors := map[];
    }

    method Contribute(o: Observation) returns (feature: Feature, contribution: nat)
      ensures feature == PieceOf(o).feature && contribution == Contribution(o)
    {
      feature := Weight(o.signal).0;
      contribution := Abs(Weight(o.signal).1) * o.strength / 1_000;
      if Unverified(o) {
        contribution := 0;
        feature := UnverifiedExplicit;
      }
    }

    method VectorKey(o: Observation) returns (key: Key)
      ensures key == KeyOf(o)
    {
      var objective := if o.objective == Some("") then None else o.objective;
      key := Importance(o.subject, Or(o.context, "global"), objective, Or(o.horizon, "current"));
    }

    method ImportanceVectorProjector(o: Observation)
      modifies this
      ensures vectors == Noted(old(vectors), o)
    {
      if o.id == "" || o.subject == "" { return; }
      var key := VectorKey(o);
      var prior := EvidenceOf(vectors, key);
      if o.id in prior.ids { return; }
      var weight := Weight(o.signal).1;
      var feature, contribution := Contribute(o);
      ContributionSplits(o);
      var support, oppose := prior.support, prior.oppose;
      if weight > 0 {
        support := support + contribution;
      } else if weight < 0 {
        oppose := oppose + contribution;
      }
      var features := prior.features[feature := Get(prior.features, feature) + contribution];
      vectors := vectors[key := ScoreOf(Vector(support, oppose, features, prior.ids + [o.id]))];
    }
  }
}
