/** Similarity of two entities: identifier overlap, else the best of all label pairs
    (packs/entity/behaviors.py). */
module EntitySimilarity {
  import EditDistance

  /** The two library string operations; nothing is assumed of them. */
  datatype TextOps = TextOps(strip: string -> string, lower: string -> string) {
    function Normalize(s: string): string { lower(strip(s)) }
  }

  datatype Entry = Entry(name: string, aliases: seq<string>, identifiers: map<string, string>)

  datatype Reason = ExactIdentifier | NameExact | NameNear | NamePartial

  function Labels(ops: TextOps, e: Entry): seq<string> {
    [ops.Normalize(e.name)] + seq(|e.aliases|, i requires 0 <= i < |e.aliases| => ops.Normalize(e.aliases[i]))
  }

  predicate Overlap(ops: TextOps, a: map<string, string>, b: map<string, string>) {
    exists key :: key in a && key in b && ops.lower(a[key]) == ops.lower(b[key])
  }

  function PairScore(ops: TextOps, x: string, y: string): real {
    EditDistance.Ratio(ops.lower(x), ops.lower(y))
  }

  function Larger(x: real, y: real): real { if y > x then y else x }

  function RowBest(ops: TextOps, x: string, ys: seq<string>): real {
    if ys == [] then 0.0
    else Larger(RowBest(ops, x, ys[..|ys| - 1]), PairScore(ops, x, ys[|ys| - 1]))
  }

  function Best(ops: TextOps, xs: seq<string>, ys: seq<string>): real {
    if xs == [] then 0.0
    else Larger(Best(ops, xs[..|xs| - 1], ys), RowBest(ops, xs[|xs| - 1], ys))
  }

  function Score(ops: TextOps, a: Entry, b: Entry): real {
    if Overlap(ops, a.identifiers, b.identifiers) then 1.0
    else Best(ops, Labels(ops, a), Labels(ops, b))
  }

  predicate ShareLabel(xs: seq<string>, ys: seq<string>) {
    exists i :: 0 <= i < |xs| && xs[i] in ys
  }

  function Reasons(ops: TextOps, a: Entry, b: Entry): seq<Reason> {
    if Overlap(ops, a.identifiers, b.identifiers) then [ExactIdentifier]
    else if ShareLabel(Labels(ops, a), Labels(ops, b)) then [NameExact]
    else if Score(ops, a, b) >= 0.9 then [NameNear]
    else if Score(ops, a, b) >= 0.7 then [NamePartial]
    else []
  }

  // ----- the score is the maximum over label pairs, hence symmetric

  /** `r` is the greatest score of `x` against one of `ys`, or 0 when there are none. */
  ghost predicate IsRowBest(ops: TextOps, x: string, ys: seq<string>, r: real) {
    && 0.0 <= r <= 1.0
    && (forall y :: y in ys ==> PairScore(ops, x, y) <= r)
    && (if ys == [] then r == 0.0 else exists y :: y in ys && PairScore(ops, x, y) == r)
  }

  lemma RowBestStep(ops: TextOps, x: string, init: seq<string>, last: string, r: real)
    requires IsRowBest(ops, x, init, r)
    ensures IsRowBest(ops, x, init + [last], Larger(r, PairScore(ops, x, last)))
  {
    EditDistance.RatioProperties(ops.lower(x), ops.lower(last));
    assert last in init + [last];
    if init != [] && PairScore(ops, x, last) <= r {
      var y :| y in init && PairScore(ops, x, y) == r;
      assert y in init + [last];
    }
  }

  lemma {:induction false} RowBestIsMax(ops: TextOps, x: string, ys: seq<string>)
    ensures IsRowBest(ops, x, ys, RowBest(ops, x, ys))
  {
    if ys == [] {
      assert RowBest(ops, x, ys) == 0.0;
    } else {
      var init, last := ys[..|ys| - 1], ys[|ys| - 1];
      assert ys == init + [last];
      RowBestIsMax(ops, x, init);
      RowBestStep(ops, x, init, last, RowBest(ops, x, init));
      assert RowBest(ops, x, ys) == Larger(RowBest(ops, x, init), PairScore(ops, x, last));
    }
  }

  /** `r` is the greatest score of a pair of labels, or 0 when there is none. */
  ghost predicate IsBest(ops: TextOps, xs: seq<string>, ys: seq<string>, r: real) {
    && 0.0 <= r <= 1.0
    && (forall x, y :: x in xs && y in ys ==> PairScore(ops, x, y) <= r)
    && (if xs == [] || ys == [] then r == 0.0 else exists x, y :: x in xs && y in ys && PairScore(ops, x, y) == r)
  }

  lemma BestStep(ops: TextOps, init: seq<string>, last: string, ys: seq<string>, r: real, row: real)
    requires IsBest(ops, init, ys, r) && IsRowBest(ops, last, ys, row)
    ensures IsBest(ops, init + [last], ys, Larger(r, row))
  {
    assert last in init + [last];
    if ys != [] {
      var y :| y in ys && PairScore(ops, last, y) == row;
      if init != [] && row <= r {
        var x, z :| x in init && z in ys && PairScore(ops, x, z) == r;
        assert x in init + [last];
      }
    }
  }

  lemma {:induction false} BestIsMax(ops: TextOps, xs: seq<string>, ys: seq<string>)
    ensures IsBest(ops, xs, ys, Best(ops, xs, ys))
  {
    if xs == [] {
      assert Best(ops, xs, ys) == 0.0;
    } else {
      var init, last := xs[..|xs| - 1], xs[|xs| - 1];
      assert xs == init + [last];
      BestIsMax(ops, init, ys);
      RowBestIsMax(ops, last, ys);
      BestStep(ops, init, last, ys, Best(ops, init, ys), RowBest(ops, last, ys));
      assert Best(ops, xs, ys) == Larger(Best(ops, init, ys), RowBest(ops, last, ys));
    }
  }

  // ----- score and reasons, in terms of the entities

  /** The name or an alias of the entity, stripped and lower-cased. */
  ghost predicate IsLabel(ops: TextOps, e: Entry, x: string) {
    x == ops.lower(ops.strip(e.name)) || exists i :: 0 <= i < |e.aliases| && x == ops.lower(ops.strip(e.aliases[i]))
  }

  lemma LabelsIff(ops: TextOps, e: Entry, x: string)
    ensures x in Labels(ops, e) <==> IsLabel(ops, e, x)
  {
    var labels := Labels(ops, e);
    assert labels[0] == ops.lower(ops.strip(e.name));
    assert forall i :: 0 <= i < |e.aliases| ==> labels[i + 1] == ops.lower(ops.strip(e.aliases[i]));
    if x in labels {
      var k :| 0 <= k < |labels| && labels[k] == x;
      if k > 0 { assert x == ops.lower(ops.strip(e.aliases[k - 1])); }
    }
  }

  /** Both have this identifier, with values equal up to case. */
  ghost predicate ShareIdentifier(ops: TextOps, a: Entry, b: Entry, key: string) {
    key in a.identifiers && key in b.identifiers && ops.lower(a.identifiers[key]) == ops.lower(b.identifiers[key])
  }

  /** A shared identifier decides; without one the score is the greatest ratio of a label of the one and
      a label of the other. */
  lemma ScoreMeans(ops: TextOps, a: Entry, b: Entry, x: string, y: string)
    ensures (exists key :: ShareIdentifier(ops, a, b, key)) ==> Score(ops, a, b) == 1.0
    ensures !(exists key :: ShareIdentifier(ops, a, b, key)) ==>
              (IsLabel(ops, a, x) && IsLabel(ops, b, y) ==>
                 EditDistance.Ratio(ops.lower(x), ops.lower(y)) <= Score(ops, a, b)) &&
              exists v, w :: IsLabel(ops, a, v) && IsLabel(ops, b, w) &&
                             EditDistance.Ratio(ops.lower(v), ops.lower(w)) == Score(ops, a, b)
  {
    OverlapIff(ops, a, b);
    BestLabels(ops, a, b, x, y);
  }

  lemma BestLabels(ops: TextOps, a: Entry, b: Entry, x: string, y: string)
    ensures var best := Best(ops, Labels(ops, a), Labels(ops, b));
            (IsLabel(ops, a, x) && IsLabel(ops, b, y) ==> EditDistance.Ratio(ops.lower(x), ops.lower(y)) <= best) &&
            exists v, w :: IsLabel(ops, a, v) && IsLabel(ops, b, w) &&
                           EditDistance.Ratio(ops.lower(v), ops.lower(w)) == best
  {
    var xs, ys := Labels(ops, a), Labels(ops, b);
    BestIsMax(ops, xs, ys);
    LabelsIff(ops, a, x);
    LabelsIff(ops, b, y);
    assert PairScore(ops, x, y) == EditDistance.Ratio(ops.lower(x), ops.lower(y));
    var v, w :| v in xs && w in ys && PairScore(ops, v, w) == Best(ops, xs, ys);
    LabelsIff(ops, a, v);
    LabelsIff(ops, b, w);
  }

  /** The reason is the shared identifier, else an equal label, else how near the best labels are. */
  lemma ReasonsMean(ops: TextOps, a: Entry, b: Entry)
    ensures var r, s := Reasons(ops, a, b), Score(ops, a, b);
            var byId := exists key :: ShareIdentifier(ops, a, b, key);
            var byLabel := exists x :: IsLabel(ops, a, x) && IsLabel(ops, b, x);
            && (byId ==> r == [ExactIdentifier])
            && (!byId && byLabel ==> r == [NameExact])
            && (!byId && !byLabel ==>
                  r == if 10.0 * s >= 9.0 then [NameNear] else if 10.0 * s >= 7.0 then [NamePartial] else [])
  {
    OverlapIff(ops, a, b);
    ShareLabelIff(ops, a, b);
  }

  lemma OverlapIff(ops: TextOps, a: Entry, b: Entry)
    ensures Overlap(ops, a.identifiers, b.identifiers) <==> exists key :: ShareIdentifier(ops, a, b, key)
  {
    if key :| ShareIdentifier(ops, a, b, key) { assert Overlap(ops, a.identifiers, b.identifiers); }
    if Overlap(ops, a.identifiers, b.identifiers) {
      var key :| key in a.identifiers && key in b.identifiers &&
                 ops.lower(a.identifiers[key]) == ops.lower(b.identifiers[key]);
      assert ShareIdentifier(ops, a, b, key);
    }
  }

  lemma ShareLabelIff(ops: TextOps, a: Entry, b: Entry)
    ensures ShareLabel(Labels(ops, a), Labels(ops, b)) <==> exists x :: IsLabel(ops, a, x) && IsLabel(ops, b, x)
  {
    var xs, ys := Labels(ops, a), Labels(ops, b);
    if i :| 0 <= i < |xs| && xs[i] in ys {
      LabelsIff(ops, a, xs[i]);
      LabelsIff(ops, b, xs[i]);
    }
    if x :| IsLabel(ops, a, x) && IsLabel(ops, b, x) {
      LabelsIff(ops, a, x);
      LabelsIff(ops, b, x);
      var i :| 0 <= i < |xs| && xs[i] == x;
    }
  }

  /** Swapping the two entities changes neither the score nor the reasons. */
  lemma SimilaritySymmetric(ops: TextOps, a: Entry, b: Entry)
    ensures Score(ops, a, b) == Score(ops, b, a)
    ensures Reasons(ops, a, b) == Reasons(ops, b, a)
  {
    OverlapSymmetric(ops, a.identifiers, b.identifiers);
    var xs, ys := Labels(ops, a), Labels(ops, b);
    BestIsMax(ops, xs, ys);
    BestIsMax(ops, ys, xs);
    forall x, y ensures PairScore(ops, x, y) == PairScore(ops, y, x) {
      EditDistance.RatioProperties(ops.lower(x), ops.lower(y));
    }
    ShareLabelSymmetric(xs, ys);
  }

  lemma OverlapSymmetric(ops: TextOps, a: map<string, string>, b: map<string, string>)
    ensures Overlap(ops, a, b) == Overlap(ops, b, a)
  {
  }

  lemma ShareLabelSymmetric(xs: seq<string>, ys: seq<string>)
    ensures ShareLabel(xs, ys) == ShareLabel(ys, xs)
  {
    if i :| 0 <= i < |xs| && xs[i] in ys {
      var j :| 0 <= j < |ys| && ys[j] == xs[i];
      assert ys[j] in xs;
    }
    if j :| 0 <= j < |ys| && ys[j] in xs {
      var i :| 0 <= i < |xs| && xs[i] == ys[j];
      assert xs[i] in ys;
    }
  }

  /** The score lies in [0, 1] and a shared normalised label forces 1. */
  lemma ScoreBounds(ops: TextOps, a: Entry, b: Entry)
    ensures 0.0 <= Score(ops, a, b) <= 1.0
    ensures ShareLabel(Labels(ops, a), Labels(ops, b)) ==> Score(ops, a, b) == 1.0
  {
    var xs, ys := Labels(ops, a), Labels(ops, b);
    BestIsMax(ops, xs, ys);
    if i :| 0 <= i < |xs| && xs[i] in ys {
      EditDistance.RatioProperties(ops.lower(xs[i]), ops.lower(xs[i]));
      assert PairScore(ops, xs[i], xs[i]) == 1.0;
    }
  }

  // ----- the loops

  method IdentifierOverlapScore(ops: TextOps, a: map<string, string>, b: map<string, string>) returns (score: real)
    ensures score == if Overlap(ops, a, b) then 1.0 else 0.0
  {
    if a == map[] || b == map[] { return 0.0; }
    var todo := a.Keys;
    while todo != {}
      invariant todo <= a.Keys
      invariant forall key :: key in a && key in b && ops.lower(a[key]) == ops.lower(b[key]) ==> key in todo
      decreases todo
    {
      var key :| key in todo;
      if key in b && ops.lower(a[key]) == ops.lower(b[key]) { return 1.0; }
      todo := todo - {key};
    }
    return 0.0;
  }

  /** The nested label loops: stop at an equal pair, else keep the best score so far. */
  method BestLabelScore(ops: TextOps, xs: seq<string>, ys: seq<string>) returns (exact: bool, best: real)
    ensures exact <==> ShareLabel(xs, ys)
    ensures !exact ==> best == Larger(0.0, Best(ops, xs, ys))
  {
    best := 0.0;
    for i := 0 to |xs|
      invariant best == Larger(0.0, Best(ops, xs[..i], ys))
      invariant forall k :: 0 <= k < i ==> xs[k] !in ys
    {
      for j := 0 to |ys|
        invariant best == Larger(Larger(0.0, Best(ops, xs[..i], ys)), RowBest(ops, xs[i], ys[..j]))
        invariant xs[i] !in ys[..j]
      {
        if xs[i] == ys[j] { return true, 1.0; }
        var s := EditDistance.EditDistanceRatio(ops.lower, xs[i], ys[j]);
        RowBestAppend(ops, xs[i], ys, j);
        if s > best { best := s; }
      }
      assert ys[..|ys|] == ys;
      BestAppend(ops, xs, ys, i);
    }
    assert xs[..|xs|] == xs;
    exact := false;
  }

  lemma RowBestAppend(ops: TextOps, x: string, ys: seq<string>, j: nat)
    requires j < |ys|
    ensures RowBest(ops, x, ys[..j + 1]) == Larger(RowBest(ops, x, ys[..j]), PairScore(ops, x, ys[j]))
  {
    assert ys[..j + 1][..j] == ys[..j];
  }

  lemma BestAppend(ops: TextOps, xs: seq<string>, ys: seq<string>, i: nat)
    requires i < |xs|
    ensures Best(ops, xs[..i + 1], ys) == Larger(Best(ops, xs[..i], ys), RowBest(ops, xs[i], ys))
  {
    assert xs[..i + 1][..i] == xs[..i];
  }

  method ComputeSimilarity(ops: TextOps, a: Entry, b: Entry) returns (score: real, reasons: seq<Reason>)
    ensures score == Score(ops, a, b) && reasons == Reasons(ops, a, b)
  {
    var idScore := IdentifierOverlapScore(ops, a.identifiers, b.identifiers);
    if idScore >= 1.0 { return 1.0, [ExactIdentifier]; }
    var xs, ys := Labels(ops, a), Labels(ops, b);
    var exact, best := BestLabelScore(ops, xs, ys);
    ScoreBounds(ops, a, b);
    if exact { return 1.0, [NameExact]; }
    reasons := if best >= 0.9 then [NameNear] else if best >= 0.7 then [NamePartial] else [];
    score := Larger(idScore, best);
  }
}
