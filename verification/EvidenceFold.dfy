/** Vectors of evidence: an order-insensitive fold of pieces of evidence, each counted once, shared by
    the importance and the source trust projector (packs/attention/behaviors.py). */
module EvidenceFold {
  import opened Prelude

  /** What a vector key hashes. */
  datatype Key = Importance(subject: string, context: string, objective: Option<string>, horizon: string)
               | Trust(source: string, domain: string, scope: string)

  datatype Feature = Opportunity | Engagement | Recurrence | OutcomeFeature | Negative | Explicit | ModelOnly
                   | UnverifiedExplicit | Unknown | Helped | Hurt | Contradicted | Stale | Neutral | Superseded

  /** One observation or outcome, as one vector sees it. */
  datatype Piece = Piece(id: string, key: Key, feature: Feature, supports: nat, opposes: nat) {
    function Total(): nat { supports + opposes }
  }

  datatype Vector = Vector(support: nat, oppose: nat, features: map<Feature, nat>, ids: seq<string>)

  const NONE := Vector(0, 0, map[], [])

  type Vectors = map<Key, Vector>

  function Get(features: map<Feature, nat>, f: Feature): nat { if f in features then features[f] else 0 }

  function Updated(v: Vector, p: Piece): Vector {
    if p.id in v.ids then v
    else Vector(v.support + p.supports, v.oppose + p.opposes,
                v.features[p.feature := Get(v.features, p.feature) + p.Total()], v.ids + [p.id])
  }

  function Prior(vs: Vectors, key: Key): Vector { if key in vs then vs[key] else NONE }

  function Projected(vs: Vectors, p: Piece): Vectors { vs[p.key := Updated(Prior(vs, p.key), p)] }

  function After(run: seq<Piece>): Vectors {
    if run == [] then map[] else Projected(After(run[..|run| - 1]), run[|run| - 1])
  }

  lemma AfterAppend(run: seq<Piece>, p: Piece)
    ensures After(run + [p]) == Projected(After(run), p)
  {
    assert (run + [p])[..|run|] == run;
  }

  // ----- the reference: sums over the distinct pieces of a vector

  ghost function Observed(run: seq<Piece>, key: Key): set<Piece> {
    set p | p in run && p.key == key
  }

  datatype Measure = Support | Opposition | Of(feature: Feature)

  function Amount(m: Measure, p: Piece): nat {
    match m
    case Support => p.supports
    case Opposition => p.opposes
    case Of(f) => if p.feature == f then p.Total() else 0
  }

  ghost function Sum(os: set<Piece>, m: Measure): nat {
    if os == {} then 0
    else
      var o :| o in os;
      Amount(m, o) + Sum(os - {o}, m)
  }

  lemma {:induction false} SumAdd(os: set<Piece>, o: Piece, m: Measure)
    requires o !in os
    ensures Sum(os + {o}, m) == Sum(os, m) + Amount(m, o)
  {
    var all := os + {o};
    var p :| p in all && Sum(all, m) == Amount(m, p) + Sum(all - {p}, m);
    if p == o {
      assert all - {p} == os;
    } else {
      assert all - {p} == (os - {p}) + {o};
      SumAdd(os - {p}, o, m);
      assert os == (os - {p}) + {p};
      SumAdd(os - {p}, p, m);
    }
  }

  /** The vector of exactly these pieces, whatever their order. */
  ghost predicate IsFoldOf(v: Vector, os: set<Piece>) {
    && v.support == Sum(os, Support) && v.oppose == Sum(os, Opposition)
    && v.features.Keys == (set o | o in os :: o.feature)
    && (forall f :: f in v.features ==> v.features[f] == Sum(os, Of(f)))
    && (forall id :: id in v.ids <==> exists o :: o in os && o.id == id)
  }

  /** Within one vector an id names one piece. */
  ghost predicate OnePiecePerId(run: seq<Piece>) {
    forall i, j :: 0 <= i < |run| && 0 <= j < |run| && run[i].id == run[j].id && run[i].key == run[j].key ==>
        run[i] == run[j]
  }

  lemma {:induction false} SumMissing(os: set<Piece>, f: Feature)
    requires forall o :: o in os ==> o.feature != f
    ensures Sum(os, Of(f)) == 0
  {
    if os == {} {
    } else {
      var o :| o in os && Sum(os, Of(f)) == Amount(Of(f), o) + Sum(os - {o}, Of(f));
      assert o.feature != f && Amount(Of(f), o) == 0;
      SumMissing(os - {o}, f);
    }
  }

  lemma FeaturesAfter(v: Vector, os: set<Piece>, o: Piece)
    requires IsFoldOf(v, os) && o !in os && o.id !in v.ids
    ensures var u := Updated(v, o);
            u.features.Keys == (set p | p in os + {o} :: p.feature) &&
            forall f :: f in u.features ==> u.features[f] == Sum(os + {o}, Of(f))
  {
    var u := Updated(v, o);
    forall f | f in u.features ensures u.features[f] == Sum(os + {o}, Of(f)) {
      SumAdd(os, o, Of(f));
      if f !in v.features {
        assert forall p :: p in os ==> p.feature in v.features.Keys;
        SumMissing(os, f);
      }
    }
  }

  lemma FoldStep(v: Vector, os: set<Piece>, o: Piece)
    requires IsFoldOf(v, os)
    requires forall p :: p in os && p.id == o.id ==> p == o
    ensures IsFoldOf(Updated(v, o), os + {o})
  {
    if o.id in v.ids {
      assert o in os;
      assert os + {o} == os;
    } else {
      assert o !in os;
      SumAdd(os, o, Support);
      SumAdd(os, o, Opposition);
      FeaturesAfter(v, os, o);
      IdsAfter(v.ids, os, o);
    }
  }

  lemma IdsAfter(ids: seq<string>, os: set<Piece>, o: Piece)
    requires forall id :: id in ids <==> exists p :: p in os && p.id == id
    ensures forall id :: id in ids + [o.id] <==> exists p :: p in os + {o} && p.id == id
  {
    forall id ensures id in ids + [o.id] <==> exists p :: p in os + {o} && p.id == id {
      if id == o.id { assert o in os + {o}; }
      if p :| p in os && p.id == id { assert p in os + {o}; }
    }
  }

  /** Over every run each vector is the fold of its distinct pieces, and exists exactly when
      there is one. */
  lemma {:induction false} VectorIsFold(run: seq<Piece>, key: Key)
    requires OnePiecePerId(run)
    ensures key in After(run) <==> Observed(run, key) != {}
    ensures key in After(run) ==> IsFoldOf(After(run)[key], Observed(run, key))
  {
    if run == [] {
    } else {
      var init, o := run[..|run| - 1], run[|run| - 1];
      assert run == init + [o];
      VectorIsFold(init, key);
      if o.key == key {
        assert Observed(run, key) == Observed(init, key) + {o};
        forall p | p in Observed(init, key) && p.id == o.id ensures p == o {
          var i :| 0 <= i < |init| && init[i] == p;
          assert run[i].id == run[|run| - 1].id && run[i].key == run[|run| - 1].key;
        }
        if key !in After(init) { NoneIsFold(); }
        FoldStep(Prior(After(init), key), Observed(init, key), o);
      } else {
        assert Observed(run, key) == Observed(init, key);
      }
    }
  }

  lemma NoneIsFold()
    ensures IsFoldOf(NONE, {})
  {
  }

  /** What a reader of the vector sees, without the order of arrival. */
  predicate SameReading(v: Vector, w: Vector) {
    && v.support == w.support && v.oppose == w.oppose && v.features == w.features
  }

  /** Reordering and repeating pieces changes no vector. */
  lemma OrderAndRepetitionIrrelevant(run: seq<Piece>, other: seq<Piece>, key: Key)
    requires OnePiecePerId(run) && OnePiecePerId(other)
    requires forall o :: o in run <==> o in other
    ensures key in After(run) <==> key in After(other)
    ensures key in After(run) ==> SameReading(After(run)[key], After(other)[key])
  {
    VectorIsFold(run, key);
    VectorIsFold(other, key);
    assert Observed(run, key) == Observed(other, key);
  }

  // ----- nothing is lost between features and evidence

  ghost function Total<F(!new)>(features: map<F, nat>, names: set<F>): nat
    requires names <= features.Keys
  {
    if names == {} then 0
    else
      var f :| f in names;
      features[f] + Total(features, names - {f})
  }

  lemma {:induction false} TotalSplit<F(!new)>(features: map<F, nat>, names: set<F>, f: F)
    requires names <= features.Keys && f in names
    ensures Total(features, names) == features[f] + Total(features, names - {f})
  {
    var g :| g in names && Total(features, names) == features[g] + Total(features, names - {g});
    if g == f {
    } else {
      assert names - {g} - {f} == names - {f} - {g};
      TotalSplit(features, names - {g}, f);
      TotalSplit(features, names - {f}, g);
    }
  }

  lemma {:induction false} TotalSame<F(!new)>(features: map<F, nat>, other: map<F, nat>, names: set<F>)
    requires names <= features.Keys && names <= other.Keys
    requires forall f :: f in names ==> features[f] == other[f]
    ensures Total(features, names) == Total(other, names)
  {
    if names == {} {
    } else {
      var f :| f in names && Total(features, names) == features[f] + Total(features, names - {f});
      TotalSame(features, other, names - {f});
      TotalSplit(other, names, f);
    }
  }

  lemma TotalUpdate<F(!new)>(features: map<F, nat>, f: F, n: nat)
    ensures var next := features[f := n];
            Total(next, next.Keys) == Total(features, features.Keys) - (if f in features then features[f] else 0) + n
  {
    var next := features[f := n];
    TotalSplit(next, next.Keys, f);
    assert next.Keys - {f} == features.Keys - {f};
    TotalSame(next, features, features.Keys - {f});
    if f in features { TotalSplit(features, features.Keys, f); }
    else { assert features.Keys - {f} == features.Keys; }
  }

  ghost predicate Balanced(v: Vector) { Total(v.features, v.features.Keys) == v.support + v.oppose }

  lemma BalancedStep(v: Vector, o: Piece)
    requires Balanced(v)
    ensures Balanced(Updated(v, o))
  {
    if o.id !in v.ids {
      TotalUpdate(v.features, o.feature, Get(v.features, o.feature) + o.Total());
    }
  }

  lemma PriorBalanced(vs: Vectors, key: Key)
    requires key in vs ==> Balanced(vs[key])
    ensures Balanced(Prior(vs, key))
  {
  }

  lemma ProjectedAt(vs: Vectors, o: Piece, key: Key)
    requires key in Projected(vs, o)
    ensures Projected(vs, o)[key] == Prior(vs, key) || Projected(vs, o)[key] == Updated(Prior(vs, key), o)
  {
  }

  lemma BalancedNext(v: Vector, u: Vector, o: Piece)
    requires Balanced(v) && (u == v || u == Updated(v, o))
    ensures Balanced(u)
  {
    BalancedStep(v, o);
  }

  /** In every vector of every run the feature totals add up to the evidence. */
  lemma {:induction false} FeaturesBalance(run: seq<Piece>, key: Key)
    requires key in After(run)
    ensures Balanced(After(run)[key])
  {
    var before, o := After(run[..|run| - 1]), run[|run| - 1];
    if key in before { FeaturesBalance(run[..|run| - 1], key); }
    PriorBalanced(before, key);
    ProjectedAt(before, o, key);
    BalancedNext(Prior(before, key), Projected(before, o)[key], o);
  }
}
