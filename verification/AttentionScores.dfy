/** The two Beta-style integer scores (packs/attention/behaviors.py) and the defaults a missing
    vector reads as (packs/attention/tools.py). */
module AttentionScores {

  datatype Band = Unranked | High | Medium | Low

  datatype Verdict = Unproven | Supported | Weak | Harmful

  function Score(support: nat, oppose: nat): nat { ((1_000 + support) * 1_000) / (2_000 + support + oppose) }

  function Confidence(effective: nat, full: nat): nat
    requires full > 0
  {
    var c := effective * 1_000 / full;
    if c < 1_000 then c else 1_000
  }

  function BandOf(effective: nat, score: nat): Band {
    if effective == 0 then Unranked else if score >= 650 then High else if score <= 350 then Low else Medium
  }

  function VerdictOf(effective: nat, score: nat): Verdict {
    if effective == 0 then Unproven else if score >= 650 then Supported else if score <= 350 then Harmful else Weak
  }

  function ImportanceScore(support: nat, oppose: nat): (nat, nat, Band) {
    (Score(support, oppose), Confidence(support + oppose, 4_000), BandOf(support + oppose, Score(support, oppose)))
  }

  function TrustScore(support: nat, challenge: nat): (nat, nat, Verdict) {
    (Score(support, challenge), Confidence(support + challenge, 3_000),
     VerdictOf(support + challenge, Score(support, challenge)))
  }

  const DEFAULT_IMPORTANCE := (500, 0, Unranked)
  const DEFAULT_TRUST := (500, 0, Unproven)

  // ----- floor division

  lemma DivBounds(a: nat, b: nat)
    requires b > 0
    ensures a / b * b <= a < a / b * b + b
  {
  }

  lemma DivAtLeast(a: nat, b: nat, q: nat)
    requires b > 0 && q * b <= a
    ensures q <= a / b
  {
    DivBounds(a, b);
    if a / b < q { MulLess(a / b + 1, q, b); }
  }

  lemma DivBelow(a: nat, b: nat, q: nat)
    requires b > 0 && a < q * b
    ensures a / b < q
  {
    DivBounds(a, b);
    if q <= a / b { MulLess(q, a / b, b); }
  }

  lemma MulLess(x: nat, y: nat, b: nat)
    requires x <= y
    ensures x * b <= y * b
  {
  }

  lemma Distribute(q: nat, b: nat, d: nat)
    ensures q * (b + d) == q * b + q * d
  {
  }

  // ----- the scores

  lemma ScoreRange(support: nat, oppose: nat)
    ensures 0 <= Score(support, oppose) <= 999
  {
    DivBelow((1_000 + support) * 1_000, 2_000 + support + oppose, 1_000);
  }

  /** More support never lowers the score. */
  lemma SupportRaises(support: nat, more: nat, oppose: nat)
    requires support <= more
    ensures Score(support, oppose) <= Score(more, oppose)
  {
    var a, b, d := (1_000 + support) * 1_000, 2_000 + support + oppose, more - support;
    var q := a / b;
    DivBounds(a, b);
    ScoreRange(support, oppose);
    Distribute(q, b, d);
    MulLess(q, 1_000, d);
    DivAtLeast(a + 1_000 * d, b + d, q);
  }

  /** More opposition never raises it. */
  lemma OppositionLowers(support: nat, oppose: nat, more: nat)
    requires oppose <= more
    ensures Score(support, more) <= Score(support, oppose)
  {
    var a, b, d := (1_000 + support) * 1_000, 2_000 + support + more, more - oppose;
    var q := a / b;
    DivBounds(a, b);
    Distribute(q, b - d, d);
    DivAtLeast(a, b - d, q);
  }

  /** A score and its swapped counterpart share out 1000, up to one unit lost in rounding; none
      is lost exactly when the division is exact. */
  lemma SwapShares(support: nat, oppose: nat)
    ensures Score(support, oppose) + Score(oppose, support) ==
            if ((1_000 + support) * 1_000) % (2_000 + support + oppose) == 0 then 1_000 else 999
  {
    var b := 2_000 + support + oppose;
    var x, y := (1_000 + support) * 1_000, (1_000 + oppose) * 1_000;
    Complement(x, y, b, 1_000);
  }

  lemma Complement(x: nat, y: nat, b: nat, k: nat)
    requires b > 0 && x + y == k * b
    ensures x / b + y / b == if x % b == 0 then k else k - 1
  {
    var p, q, r, s := x / b, y / b, x % b, y % b;
    assert x == p * b + r && y == q * b + s;
    assert (k - p - q) * b == r + s by {
      assert k * b - p * b - q * b == r + s;
    }
    ZeroOrOne(k - p - q, b);
  }

  lemma ZeroOrOne(d: int, b: nat)
    requires 0 <= d * b < 2 * b
    ensures d == 0 || d == 1
  {
  }

  lemma ConfidenceMonotone(effective: nat, more: nat, full: nat)
    requires full > 0 && effective <= more
    ensures Confidence(effective, full) <= Confidence(more, full) <= 1_000
  {
    DivBounds(effective * 1_000, full);
    DivAtLeast(more * 1_000, full, effective * 1_000 / full);
  }

  /** Confidence is full from `full` units of evidence on, and not before. */
  lemma ConfidenceFullIff(effective: nat, full: nat)
    requires full > 0
    ensures Confidence(effective, full) == 1_000 <==> effective >= full
  {
    if effective >= full {
      DivAtLeast(effective * 1_000, full, 1_000);
    } else {
      DivBelow(effective * 1_000, full, 1_000);
    }
  }

  /** Without evidence both scores are the default of a missing vector, and only then is a
      vector unranked or unproven. */
  lemma NoEvidenceIsDefault(support: nat, oppose: nat)
    ensures ImportanceScore(0, 0) == DEFAULT_IMPORTANCE && TrustScore(0, 0) == DEFAULT_TRUST
    ensures ImportanceScore(support, oppose).2 == Unranked <==> support + oppose == 0
    ensures TrustScore(support, oppose).2 == Unproven <==> support + oppose == 0
  {
  }

  // ----- bands and verdicts, in terms of the evidence

  lemma AtLeast650(support: nat, oppose: nat)
    ensures Score(support, oppose) >= 650 <==> 7 * support >= 13 * oppose + 6_000
  {
    var a, b := (1_000 + support) * 1_000, 2_000 + support + oppose;
    if 650 * b <= a { DivAtLeast(a, b, 650); } else { DivBelow(a, b, 650); }
  }

  lemma AtMost350(support: nat, oppose: nat)
    ensures Score(support, oppose) <= 350 <==> 649 * support + 298_000 < 351 * oppose
  {
    var a, b := (1_000 + support) * 1_000, 2_000 + support + oppose;
    if 351 * b <= a { DivAtLeast(a, b, 351); } else { DivBelow(a, b, 351); }
  }

  lemma Scaled(effective: nat, k: nat)
    requires k > 0
    ensures effective * 1_000 / (1_000 * k) == effective / k
  {
    var q, r := effective / k, effective % k;
    assert effective == q * k + r;
    assert effective * 1_000 == q * (1_000 * k) + r * 1_000;
    assert 0 <= r * 1_000 < 1_000 * k;
    Quotient(effective * 1_000, 1_000 * k, q, r * 1_000);
  }

  lemma Quotient(a: nat, b: nat, q: nat, r: nat)
    requires r < b && a == q * b + r
    ensures a / b == q
  {
    DivAtLeast(a, b, q);
    DivBelow(a, b, q + 1);
  }

  /** A vector with evidence is high or low by how far support and opposition are apart, and fully
      confident from 4000 units on. */
  lemma ImportanceMeans(support: nat, oppose: nat)
    requires support + oppose > 0
    ensures var (score, confidence, band) := ImportanceScore(support, oppose);
            && (band == High <==> 7 * support >= 13 * oppose + 6_000)
            && (band == Low <==> 649 * support + 298_000 < 351 * oppose)
            && band != Unranked && score == Score(support, oppose)
            && confidence == if support + oppose >= 4_000 then 1_000 else (support + oppose) / 4
  {
    AtLeast650(support, oppose);
    AtMost350(support, oppose);
    Scaled(support + oppose, 4);
  }

  /** The same for a source, fully confident from 3000 units on. */
  lemma TrustMeans(support: nat, challenge: nat)
    requires support + challenge > 0
    ensures var (score, confidence, verdict) := TrustScore(support, challenge);
            && (verdict == Supported <==> 7 * support >= 13 * challenge + 6_000)
            && (verdict == Harmful <==> 649 * support + 298_000 < 351 * challenge)
            && verdict != Unproven && score == Score(support, challenge)
            && confidence == if support + challenge >= 3_000 then 1_000 else (support + challenge) / 3
  {
    AtLeast650(support, challenge);
    AtMost350(support, challenge);
    Scaled(support + challenge, 3);
  }
}
