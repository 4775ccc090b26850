/** Normalised edit distance between two labels (packs/entity/behaviors.py).

    `Lev` is the textbook recursion over last characters.  It is tied to two other
    things: the one-row loop of the source computes it, and it is the least cost of an
    edit script that turns one string into the other. */
module EditDistance {
  import opened Prelude

  function Max(x: nat, y: nat): nat { if x <= y then y else x }

  function Init(s: string): string
    requires s != []
  {
    s[..|s| - 1]
  }

  function Last(s: string): char
    requires s != []
  {
    s[|s| - 1]
  }

  function Cost(c: char, d: char): nat { if c == d then 0 else 1 }

  function Lev(a: string, b: string): nat
    decreases |a| + |b|
  {
    if a == [] then |b|
    else if b == [] then |a|
    else Least(Least(Lev(a, Init(b)) + 1, Lev(Init(a), b) + 1), Lev(Init(a), Init(b)) + Cost(Last(a), Last(b)))
  }

  // ----- the independent meaning: edit scripts

  /** One step of a script that walks a string from left to right. */
  datatype Edit = Keep | Replace(c: char) | Insert(c: char) | Delete

  datatype Outcome = Stuck | Text(text: string)

  function ScriptCost(script: seq<Edit>): nat {
    if script == [] then 0
    else ScriptCost(script[..|script| - 1]) + if script[|script| - 1].Keep? then 0 else 1
  }

  /** What the script makes of `a`; a script must consume all of `a`. */
  function Run(script: seq<Edit>, a: string): Outcome
    decreases |script|
  {
    if script == [] then (if a == [] then Text([]) else Stuck)
    else
      var rest := script[..|script| - 1];
      match script[|script| - 1]
      case Insert(c) =>
        (match Run(rest, a) case Stuck => Stuck case Text(t) => Text(t + [c]))
      case Delete =>
        if a == [] then Stuck else Run(rest, Init(a))
      case Replace(c) =>
        if a == [] then Stuck
        else (match Run(rest, Init(a)) case Stuck => Stuck case Text(t) => Text(t + [c]))
      case Keep =>
        if a == [] then Stuck
        else (match Run(rest, Init(a)) case Stuck => Stuck case Text(t) => Text(t + [Last(a)]))
  }

  /** No script is cheaper than the distance. */
  lemma {:induction false} LevIsLowerBound(script: seq<Edit>, a: string, b: string)
    requires Run(script, a) == Text(b)
    ensures Lev(a, b) <= ScriptCost(script)
    decreases |script|
  {
    if script == [] {
    } else {
      var rest := script[..|script| - 1];
      match script[|script| - 1]
      case Insert(c) =>
        assert Init(b) == Run(rest, a).text;
        LevIsLowerBound(rest, a, Init(b));
        LevStep(a, b);
      case Delete =>
        LevIsLowerBound(rest, Init(a), b);
        LevStep(a, b);
      case Replace(c) =>
        assert Init(b) == Run(rest, Init(a)).text;
        LevIsLowerBound(rest, Init(a), Init(b));
        LevStep(a, b);
      case Keep =>
        assert Init(b) == Run(rest, Init(a)).text;
        LevIsLowerBound(rest, Init(a), Init(b));
        LevStep(a, b);
    }
  }

  /** The three ways to shorten a pair never gain more than they cost. */
  lemma LevStep(a: string, b: string)
    ensures a != [] ==> Lev(a, b) <= Lev(Init(a), b) + 1
    ensures b != [] ==> Lev(a, b) <= Lev(a, Init(b)) + 1
    ensures a != [] && b != [] ==> Lev(a, b) <= Lev(Init(a), Init(b)) + Cost(Last(a), Last(b))
  {
    LevBounds(a, b);
  }

  lemma {:induction false} LevBounds(a: string, b: string)
    ensures Lev(a, b) <= Max(|a|, |b|)
    ensures Lev(a, b) >= |a| - |b| && Lev(a, b) >= |b| - |a|
    decreases |a| + |b|
  {
    if a == [] || b == [] {
    } else {
      LevBounds(Init(a), Init(b));
      LevBounds(a, Init(b));
      LevBounds(Init(a), b);
    }
  }

  /** A script that costs exactly the distance. */
  ghost function Cheapest(a: string, b: string): (script: seq<Edit>)
    ensures Run(script, a) == Text(b) && ScriptCost(script) == Lev(a, b)
    decreases |a| + |b|
  {
    if a == [] then
      if b == [] then []
      else
        var rest := Cheapest(a, Init(b));
        assert Init(b) + [Last(b)] == b;
        assert (rest + [Insert(Last(b))])[..|rest|] == rest;
        rest + [Insert(Last(b))]
    else if b == [] then
      var rest := Cheapest(Init(a), b);
      assert (rest + [Delete])[..|rest|] == rest;
      rest + [Delete]
    else
      assert Init(b) + [Last(b)] == b;
      if Lev(a, b) == Lev(a, Init(b)) + 1 then
        var rest := Cheapest(a, Init(b));
        assert (rest + [Insert(Last(b))])[..|rest|] == rest;
        rest + [Insert(Last(b))]
      else if Lev(a, b) == Lev(Init(a), b) + 1 then
        var rest := Cheapest(Init(a), b);
        assert (rest + [Delete])[..|rest|] == rest;
        rest + [Delete]
      else
        var rest := Cheapest(Init(a), Init(b));
        var step := if Last(a) == Last(b) then Keep else Replace(Last(b));
        assert (rest + [step])[..|rest|] == rest;
        rest + [step]
  }

  ghost predicate Achieves(script: seq<Edit>, a: string, b: string, cost: nat) {
    Run(script, a) == Text(b) && ScriptCost(script) == cost
  }

  /** The distance is the minimum cost over all edit scripts. */
  lemma LevIsMinimum(a: string, b: string)
    ensures exists script :: Achieves(script, a, b, Lev(a, b))
    ensures forall script, cost :: Achieves(script, a, b, cost) ==> Lev(a, b) <= cost
  {
    assert Achieves(Cheapest(a, b), a, b, Lev(a, b));
    forall script, cost | Achieves(script, a, b, cost) ensures Lev(a, b) <= cost {
      LevIsLowerBound(script, a, b);
    }
  }

  // ----- metric facts

  lemma {:induction false} LevSymmetric(a: string, b: string)
    ensures Lev(a, b) == Lev(b, a)
    decreases |a| + |b|
  {
    if a == [] || b == [] {
    } else {
      LevSymmetric(a, Init(b));
      LevSymmetric(Init(a), b);
      LevSymmetric(Init(a), Init(b));
    }
  }

  lemma {:induction false} LevZero(a: string, b: string)
    ensures Lev(a, b) == 0 <==> a == b
    decreases |a| + |b|
  {
    if a == [] || b == [] {
    } else {
      LevZero(Init(a), Init(b));
      assert a == Init(a) + [Last(a)] && b == Init(b) + [Last(b)];
    }
  }

  lemma {:induction false} LevTriangle(a: string, b: string, c: string)
    ensures Lev(a, c) <= Lev(a, b) + Lev(b, c)
    decreases |a| + |b| + |c|
  {
    LevBounds(a, b);
    LevBounds(b, c);
    LevBounds(a, c);
    if a == [] || b == [] || c == [] {
    } else {
      LevTriangle(Init(a), b, c);
      LevTriangle(a, b, Init(c));
      LevTriangle(a, Init(b), c);
      LevTriangle(Init(a), Init(b), Init(c));
      LevTriangle(a, Init(b), Init(c));
      LevTriangle(Init(a), Init(b), c);
    }
  }

  // ----- the ratio

  function Share(d: nat, m: nat): real
    requires m > 0
  {
    1.0 - d as real / m as real
  }

  lemma ShareBounds(d: nat, m: nat)
    requires d <= m && m > 0
    ensures 0.0 <= Share(d, m) <= 1.0
    ensures Share(d, m) == 1.0 <==> d == 0
    ensures Share(d, m) == 0.0 <==> d == m
  {
    var r := d as real / m as real;
    assert r * m as real == d as real;
    assert m as real / m as real == 1.0;
  }

  /** The score the source returns for two lower-cased labels. */
  function Ratio(a: string, b: string): real {
    if a == b then 1.0
    else if a == [] || b == [] then 0.0
    else Share(Lev(a, b), Max(|a|, |b|))
  }

  /** The early returns agree with the general formula, which yields a symmetric score
      between 0 and 1 that is 1 for equal labels only. */
  lemma RatioProperties(a: string, b: string)
    ensures a != [] || b != [] ==> Ratio(a, b) == Share(Lev(a, b), Max(|a|, |b|))
    ensures 0.0 <= Ratio(a, b) <= 1.0
    ensures Ratio(a, b) == Ratio(b, a)
    ensures Ratio(a, b) == 1.0 <==> a == b
  {
    LevBounds(a, b);
    LevSymmetric(a, b);
    LevZero(a, b);
    if a != [] || b != [] { ShareBounds(Lev(a, b), Max(|a|, |b|)); }
  }

  /** `c` is the least number of edits that turn one label into the other. */
  ghost predicate LeastCost(a: string, b: string, c: nat) {
    && (exists script :: Achieves(script, a, b, c))
    && forall script, cost :: Achieves(script, a, b, cost) ==> c <= cost
  }

  /** `n` is the length of the longer label. */
  predicate Longer(a: string, b: string, n: nat) { |a| <= n && |b| <= n && (n == |a| || n == |b|) }

  /** Of `n` characters the share `r` is what is left when `c` are edited. */
  predicate KeepsShare(r: real, n: nat, c: nat) { r * n as real == n as real - c as real }

  /** The score is the share of the longer label that needs no edit: 1 minus the least number of
      edits over its length. */
  lemma RatioIsShareKept(a: string, b: string, n: nat, c: nat)
    requires Longer(a, b, n) && n > 0 && LeastCost(a, b, c)
    ensures KeepsShare(Ratio(a, b), n, c)
  {
    LeastIsLev(a, b, c);
    RatioFormula(a, b, n);
    ShareTimes(Ratio(a, b), c, n);
  }

  lemma RatioFormula(a: string, b: string, n: nat)
    requires Longer(a, b, n) && n > 0
    ensures Ratio(a, b) == Share(Lev(a, b), n)
  {
    RatioProperties(a, b);
  }

  lemma LeastIsLev(a: string, b: string, c: nat)
    requires LeastCost(a, b, c)
    ensures c == Lev(a, b)
  {
    LevIsMinimum(a, b);
    assert Achieves(Cheapest(a, b), a, b, Lev(a, b));
  }

  lemma ShareTimes(s: real, d: nat, m: nat)
    requires m > 0 && s == Share(d, m)
    ensures KeepsShare(s, m, d)
  {
    var r := d as real / m as real;
    assert r * m as real == d as real;
  }

  /** The score is 0 if and only if no script is cheaper than the longer label is long; two empty
      labels score 1. */
  lemma RatioZeroIff(a: string, b: string, n: nat)
    requires Longer(a, b, n)
    ensures n == 0 ==> Ratio(a, b) == 1.0
    ensures n > 0 ==> (Ratio(a, b) == 0.0 <==> forall script, cost :: Achieves(script, a, b, cost) ==> n <= cost)
    ensures n > 0 && (a == [] || b == []) ==> Ratio(a, b) == 0.0
  {
    if n > 0 {
      LevIsLeast(a, b);
      RatioFormula(a, b, n);
      LevBounds(a, b);
      ShareBounds(Lev(a, b), n);
    }
  }

  lemma LevIsLeast(a: string, b: string)
    ensures LeastCost(a, b, Lev(a, b))
  {
    LevIsMinimum(a, b);
  }

  // ----- the loop

  ghost predicate IsRow(row: seq<nat>, a: string, b: string) {
    |row| <= |b| + 1 && forall j :: 0 <= j < |row| ==> row[j] == Lev(a, b[..j])
  }

  lemma RowStep(row: seq<nat>, next: seq<nat>, a: string, b: string)
    requires a != [] && |row| == |b| + 1 && 1 <= |next| <= |b|
    requires IsRow(row, Init(a), b) && IsRow(next, a, b)
    ensures var j := |next|;
            IsRow(next + [Least(Least(next[j - 1] + 1, row[j] + 1), row[j - 1] + Cost(Last(a), b[j - 1]))], a, b)
  {
    var j := |next|;
    assert Init(b[..j]) == b[..j - 1];
    assert Lev(a, b[..j]) ==
           Least(Least(next[j - 1] + 1, row[j] + 1), row[j - 1] + Cost(Last(a), b[j - 1]));
  }

  /** The distance loop with its single row. */
  method Distance(a: string, b: string) returns (distance: nat)
    ensures distance == Lev(a, b)
  {
    var m, n := |a|, |b|;
    var row: seq<nat> := seq(n + 1, j => j);
    for i := 1 to m + 1
      invariant |row| == n + 1 && IsRow(row, a[..i - 1], b)
    {
      var next: seq<nat> := [i];
      assert Init(a[..i]) == a[..i - 1];
      for j := 1 to n + 1
        invariant |next| == j && IsRow(next, a[..i], b)
      {
        var cost := if a[i - 1] == b[j - 1] then 0 else 1;
        RowStep(row, next, a[..i], b);
        next := next + [Least(Least(next[j - 1] + 1, row[j] + 1), row[j - 1] + cost)];
      }
      row := next;
    }
    assert a[..m] == a && b[..n] == b;
    return row[n];
  }

  /** The early returns around the loop. */
  method EditDistanceRatio(lower: string -> string, first: string, second: string) returns (ratio: real)
    ensures ratio == Ratio(lower(first), lower(second))
  {
    var a, b := lower(first), lower(second);
    if a == b { return 1.0; }
    if a == [] || b == [] { return 0.0; }
    var distance := Distance(a, b);
    return 1.0 - distance as real / Max(|a|, |b|) as real;
  }
}
