/** Ranking of subjects with an exploration reserve (packs/attention/tools.py). */
module Ranking {
  import opened Prelude
  import opened AttentionScores
  import EvidenceFold
  import V = ImportanceVectors

  /** One subject as the ranking sees it. */
  datatype Row = Row(subject: string, score: nat, confidence: nat, ranked: bool)

  datatype Request = Request(context: string, objective: Option<string>, horizon: string)

  /** The query is compared as it stands: an empty objective is no vector's. */
  function RowOf(vectors: V.Vectors, q: Request, subject: string): Row {
    var key := EvidenceFold.Importance(subject, q.context, q.objective, q.horizon);
    if key in vectors && q.objective != Some("")
    then Row(subject, vectors[key].score, vectors[key].confidence, vectors[key].band != Unranked)
    else Row(subject, DEFAULT_IMPORTANCE.0, DEFAULT_IMPORTANCE.1, DEFAULT_IMPORTANCE.2 != Unranked)
  }

  // ----- orders

  /** str comparison: lexicographic on code points. */
  predicate TextLess(a: string, b: string) {
    if b == [] then false
    else if a == [] then true
    else a[0] < b[0] || (a[0] == b[0] && TextLess(a[1..], b[1..]))
  }

  lemma {:induction false} TextTotal(a: string, b: string)
    ensures TextLess(a, b) || TextLess(b, a) || a == b
    ensures !(TextLess(a, b) && TextLess(b, a)) && !TextLess(a, a)
  {
    if a == [] {
    } else {
      TextTotal(a[1..], a[1..]);
      if b != [] {
        TextTotal(a[1..], b[1..]);
        if a[0] == b[0] && a[1..] == b[1..] { assert a == [a[0]] + a[1..] && b == [b[0]] + b[1..]; }
      }
    }
  }

  lemma {:induction false} TextTransitive(a: string, b: string, c: string)
    requires TextLess(a, b) && TextLess(b, c)
    ensures TextLess(a, c)
  {
    if a == [] || a[0] != b[0] || b[0] != c[0] {
    } else {
      TextTransitive(a[1..], b[1..], c[1..]);
    }
  }

  /** The two sort keys: importance, or the hash of the subject. */
  datatype Order = ByImportance | ByHash(hash: string -> nat)

  predicate Precedes(o: Order, a: Row, b: Row) {
    match o
    case ByHash(hash) => hash(a.subject) < hash(b.subject)
    case ByImportance =>
      a.score > b.score || (a.score == b.score && (a.confidence > b.confidence ||
        (a.confidence == b.confidence && TextLess(a.subject, b.subject))))
  }

  /** Rows of different subjects never tie; for hashes that means no collision. */
  ghost predicate Strict(o: Order, rows: seq<Row>) {
    forall i, j :: 0 <= i < |rows| && 0 <= j < |rows| && rows[i] != rows[j] ==>
        Precedes(o, rows[i], rows[j]) || Precedes(o, rows[j], rows[i])
  }

  lemma PrecedesOrders(o: Order, a: Row, b: Row, c: Row)
    ensures !(Precedes(o, a, b) && Precedes(o, b, a))
    ensures Precedes(o, a, b) && Precedes(o, b, c) ==> Precedes(o, a, c)
  {
    if o.ByImportance? {
      TextTotal(a.subject, b.subject);
      if TextLess(a.subject, b.subject) && TextLess(b.subject, c.subject) {
        TextTransitive(a.subject, b.subject, c.subject);
      }
    }
  }

  lemma NotPrecededTransitive(o: Order, a: Row, b: Row, c: Row)
    requires !Precedes(o, b, a) && !Precedes(o, c, b)
    ensures !Precedes(o, c, a)
  {
    if o.ByImportance? && Precedes(o, c, a) {
      TextTotal(a.subject, b.subject);
      TextTotal(b.subject, c.subject);
      TextTotal(c.subject, a.subject);
      if TextLess(a.subject, b.subject) && TextLess(b.subject, c.subject) {
        TextTransitive(a.subject, b.subject, c.subject);
      }
    }
  }

  // ----- the stable sort

  function By(o: Order): (Row, Row) -> bool { (a, b) => Precedes(o, a, b) }

  function Insert(o: Order, rows: seq<Row>, r: Row): seq<Row> { Inserted(By(o), rows, r) }

  function Sort(o: Order, rows: seq<Row>): seq<Row> {
    if rows == [] then [] else Insert(o, Sort(o, rows[..|rows| - 1]), rows[|rows| - 1])
  }

  ghost predicate Sorted(o: Order, rows: seq<Row>) {
    forall i, j :: 0 <= i < j < |rows| ==> !Precedes(o, rows[j], rows[i])
  }

  lemma {:induction false} InsertAdds(o: Order, rows: seq<Row>, r: Row)
    ensures multiset(Insert(o, rows, r)) == multiset(rows) + multiset{r}
  {
    if rows == [] {
    } else {
      assert rows == rows[..|rows| - 1] + [rows[|rows| - 1]];
      InsertAdds(o, rows[..|rows| - 1], r);
    }
  }

  lemma SortedAppend(o: Order, rows: seq<Row>, last: Row)
    requires Sorted(o, rows) && forall r :: r in multiset(rows) ==> !Precedes(o, last, r)
    ensures Sorted(o, rows + [last])
  {
    forall i | 0 <= i < |rows| ensures !Precedes(o, last, rows[i]) { assert rows[i] in multiset(rows); }
  }

  lemma LastFitsAfter(o: Order, rows: seq<Row>, r: Row)
    requires Sorted(o, rows) && (rows == [] || !Precedes(o, r, rows[|rows| - 1]))
    ensures Sorted(o, rows + [r])
  {
    forall i | 0 <= i < |rows| ensures !Precedes(o, r, rows[i]) {
      if i < |rows| - 1 { NotPrecededTransitive(o, rows[i], rows[|rows| - 1], r); }
    }
  }

  lemma {:induction false} InsertSorted(o: Order, rows: seq<Row>, r: Row)
    requires Sorted(o, rows)
    ensures Sorted(o, Insert(o, rows, r))
  {
    if rows == [] || !Precedes(o, r, rows[|rows| - 1]) {
      LastFitsAfter(o, rows, r);
    } else {
      var init, last := rows[..|rows| - 1], rows[|rows| - 1];
      InsertSorted(o, init, r);
      InsertAdds(o, init, r);
      PrecedesOrders(o, r, last, r);
      forall x | x in multiset(init) + multiset{r} ensures !Precedes(o, last, x) {
        if x != r { assert x in init; }
      }
      SortedAppend(o, Insert(o, init, r), last);
    }
  }

  lemma {:induction false} SortSorts(o: Order, rows: seq<Row>)
    ensures Sorted(o, Sort(o, rows)) && multiset(Sort(o, rows)) == multiset(rows)
  {
    if rows == [] {
    } else {
      assert rows == rows[..|rows| - 1] + [rows[|rows| - 1]];
      SortSorts(o, rows[..|rows| - 1]);
      InsertSorted(o, Sort(o, rows[..|rows| - 1]), rows[|rows| - 1]);
      InsertAdds(o, Sort(o, rows[..|rows| - 1]), rows[|rows| - 1]);
    }
  }

  lemma LastFollows(o: Order, rows: seq<Row>, r: Row)
    requires rows != [] && Sorted(o, rows) && Strict(o, rows) && r in rows
    ensures r == rows[|rows| - 1] || Precedes(o, r, rows[|rows| - 1])
  {
    var i :| 0 <= i < |rows| && rows[i] == r;
    assert r == rows[|rows| - 1] || !Precedes(o, rows[|rows| - 1], r);
  }

  lemma LastNotPreceding(o: Order, rows: seq<Row>, r: Row)
    requires rows != [] && Sorted(o, rows) && r in rows
    ensures r == rows[|rows| - 1] || !Precedes(o, rows[|rows| - 1], r)
  {
    var i :| 0 <= i < |rows| && rows[i] == r;
  }

  lemma SameLast(o: Order, xs: seq<Row>, ys: seq<Row>)
    requires xs != [] && ys != [] && Sorted(o, xs) && Sorted(o, ys) && Strict(o, xs) && multiset(xs) == multiset(ys)
    ensures xs[|xs| - 1] == ys[|ys| - 1]
  {
    var x, y := xs[|xs| - 1], ys[|ys| - 1];
    assert x in multiset(ys) && y in multiset(xs);
    LastFollows(o, xs, y);
    LastNotPreceding(o, ys, x);
  }

  lemma SortedInit(o: Order, rows: seq<Row>)
    requires rows != [] && Sorted(o, rows) && Strict(o, rows)
    ensures Sorted(o, rows[..|rows| - 1]) && Strict(o, rows[..|rows| - 1])
  {
  }

  lemma DropLast(xs: seq<Row>)
    requires xs != []
    ensures multiset(xs[..|xs| - 1]) == multiset(xs) - multiset{xs[|xs| - 1]}
  {
    assert xs == xs[..|xs| - 1] + [xs[|xs| - 1]];
  }

  lemma SameInits(o: Order, xs: seq<Row>, ys: seq<Row>)
    requires xs != [] && Sorted(o, xs) && Sorted(o, ys) && Strict(o, xs) && multiset(xs) == multiset(ys)
    ensures ys != [] && xs[|xs| - 1] == ys[|ys| - 1]
    ensures multiset(xs[..|xs| - 1]) == multiset(ys[..|ys| - 1])
  {
    assert |multiset(ys)| == |ys| && |multiset(xs)| == |xs|;
    SameLast(o, xs, ys);
    DropLast(xs);
    DropLast(ys);
  }

  lemma Rejoin(xs: seq<Row>, ys: seq<Row>)
    requires xs != [] && ys != [] && xs[|xs| - 1] == ys[|ys| - 1] && xs[..|xs| - 1] == ys[..|ys| - 1]
    ensures xs == ys
  {
    assert xs == xs[..|xs| - 1] + [xs[|xs| - 1]] && ys == ys[..|ys| - 1] + [ys[|ys| - 1]];
  }

  /** Two sorted lists of the same distinct rows, none of which tie, are the same list. */
  lemma {:induction false} SortedUnique(o: Order, xs: seq<Row>, ys: seq<Row>)
    requires Sorted(o, xs) && Sorted(o, ys) && Strict(o, xs) && multiset(xs) == multiset(ys)
    ensures xs == ys
  {
    if xs == [] {
      assert |multiset(ys)| == |ys|;
    } else {
      SameInits(o, xs, ys);
      SortedInit(o, xs);
      SortedUnique(o, xs[..|xs| - 1], ys[..|ys| - 1]);
      Rejoin(xs, ys);
    }
  }

  // ----- the ranking

  /** First occurrences of the non-empty references. */
  function Subjects(refs: seq<string>): (d: seq<string>)
    ensures Distinct(d) && "" !in d && forall s :: s in d <==> s != "" && s in refs
  {
    if refs == [] then []
    else
      var d, last := Subjects(refs[..|refs| - 1]), refs[|refs| - 1];
      assert refs == refs[..|refs| - 1] + [last];
      if last == "" || last in d then d else d + [last]
  }

  function Rows(vectors: V.Vectors, q: Request, subjects: seq<string>, ranked: bool): (rows: seq<Row>)
    ensures forall r :: r in rows ==> r.ranked == ranked && r.subject in subjects && r == RowOf(vectors, q, r.subject)
    ensures forall s :: s in subjects && RowOf(vectors, q, s).ranked == ranked ==> RowOf(vectors, q, s) in rows
  {
    if subjects == [] then []
    else
      var init, last := subjects[..|subjects| - 1], RowOf(vectors, q, subjects[|subjects| - 1]);
      assert subjects == init + [subjects[|subjects| - 1]];
      Rows(vectors, q, init, ranked) + if last.ranked == ranked then [last] else []
  }

  /** The chosen rows: those selected for importance, then those selected for exploration. */
  datatype Choice = Choice(important: seq<Row>, explored: seq<Row>)

  function Ranked(vectors: V.Vectors, q: Request, hash: string -> nat, refs: seq<string>, limit: int,
                  slots: int): Result<Choice, string> {
    if limit < 1 then Err("limit must be positive")
    else if slots < 0 || slots > limit then Err("exploration_slots must be between zero and limit")
    else
      Ok(Chosen(vectors, q, hash, Subjects(refs), limit, slots))
  }

  function Chosen(vectors: V.Vectors, q: Request, hash: string -> nat, subjects: seq<string>, limit: nat,
                  slots: nat): Choice
    requires slots <= limit
  {
    Picked(SortedOf(vectors, q, ByImportance, subjects, true), SortedOf(vectors, q, ByHash(hash), subjects, false),
           limit, slots)
  }

  function SortedOf(vectors: V.Vectors, q: Request, o: Order, subjects: seq<string>, ranked: bool): seq<Row> {
    Sort(o, Rows(vectors, q, subjects, ranked))
  }

  function Picked(ranked: seq<Row>, unranked: seq<Row>, limit: nat, slots: nat): Choice
    requires slots <= limit
  {
    var explored := Take(unranked, slots);
    Choice(Take(ranked, limit - |explored|), explored)
  }

  // ----- guarantees

  lemma {:induction false} RowsDistinct(vectors: V.Vectors, q: Request, subjects: seq<string>, ranked: bool)
    requires Distinct(subjects)
    ensures DistinctSubjects(Rows(vectors, q, subjects, ranked)) && Distinct(Rows(vectors, q, subjects, ranked))
  {
    if subjects == [] {
    } else {
      var init, last := subjects[..|subjects| - 1], subjects[|subjects| - 1];
      var rows := Rows(vectors, q, init, ranked);
      RowsDistinct(vectors, q, init, ranked);
      forall i | 0 <= i < |rows| ensures rows[i].subject != last {
        assert rows[i] in rows && rows[i].subject in init;
      }
      OneMoreSubject(rows, RowOf(vectors, q, last));
    }
  }

  ghost predicate DistinctSubjects(rows: seq<Row>) {
    forall i, j :: 0 <= i < j < |rows| ==> rows[i].subject != rows[j].subject
  }

  lemma OneMoreSubject(rows: seq<Row>, r: Row)
    requires DistinctSubjects(rows) && Distinct(rows) && forall i :: 0 <= i < |rows| ==> rows[i].subject != r.subject
    ensures DistinctSubjects(rows + [r]) && Distinct(rows + [r])
  {
  }

  /** The subjects of one kind: each ranks or is unranked, and each appears once. */
  lemma SortedRows(vectors: V.Vectors, q: Request, o: Order, subjects: seq<string>, ranked: bool)
    requires Distinct(subjects)
    ensures var sorted := Sort(o, Rows(vectors, q, subjects, ranked));
            Sorted(o, sorted) && Distinct(sorted) && |sorted| == |Rows(vectors, q, subjects, ranked)| &&
            forall r :: r in sorted <==>
              r.ranked == ranked && r.subject in subjects && r == RowOf(vectors, q, r.subject)
  {
    var rows := Rows(vectors, q, subjects, ranked);
    var sorted := Sort(o, rows);
    SortSorts(o, rows);
    RowsDistinct(vectors, q, subjects, ranked);
    SameMultisetDistinct(rows, sorted);
    forall r ensures r in sorted <==> r in rows { assert r in multiset(sorted) <==> r in multiset(rows); }
  }

  lemma {:induction false} CountDistinct(rows: seq<Row>, r: Row)
    requires Distinct(rows)
    ensures multiset(rows)[r] <= 1
  {
    if rows == [] {
    } else {
      var init := rows[..|rows| - 1];
      assert rows == init + [rows[|rows| - 1]];
      CountDistinct(init, r);
      if r == rows[|rows| - 1] { assert r !in init; }
    }
  }

  lemma CountTwice(rows: seq<Row>, i: nat, j: nat)
    requires i < j < |rows|
    ensures rows[i] == rows[j] ==> multiset(rows)[rows[i]] >= 2
  {
    assert rows == rows[..j] + rows[j..];
    assert rows[i] == rows[..j][i] && rows[j] == rows[j..][0];
  }

  lemma SameMultisetDistinct(rows: seq<Row>, others: seq<Row>)
    requires Distinct(rows) && multiset(rows) == multiset(others)
    ensures Distinct(others) && |others| == |rows|
  {
    assert |multiset(rows)| == |rows| && |multiset(others)| == |others|;
    forall i, j | 0 <= i < j < |others| ensures others[i] != others[j] {
      CountDistinct(rows, others[i]);
      CountTwice(others, i, j);
    }
  }

  lemma TakeKeeps(rows: seq<Row>, n: nat)
    requires Distinct(rows)
    ensures Distinct(Take(rows, n)) && forall r :: r in Take(rows, n) ==> r in rows
  {
  }

  /** What is taken from a sorted list: nothing left out sorts before it. */
  lemma TakeIsBest(o: Order, sorted: seq<Row>, n: nat, r: Row, t: Row)
    requires Sorted(o, sorted) && r in Take(sorted, n) && t in sorted && t !in Take(sorted, n)
    ensures !Precedes(o, t, r)
  {
    var k := Least(n, |sorted|);
    var rest := sorted[k..];
    assert sorted == Take(sorted, n) + rest;
    var i :| 0 <= i < k && sorted[i] == r;
    var j :| 0 <= j < |rest| && rest[j] == t;
    assert sorted[k + j] == t;
  }

  /** At most `limit` distinct subjects, with as many unranked ones as the reserve allows and
      ranked ones in all places left. */
  lemma ChosenGuarantees(vectors: V.Vectors, q: Request, hash: string -> nat, subjects: seq<string>, limit: nat,
                         slots: nat)
    requires slots <= limit && Distinct(subjects)
    ensures var c := Chosen(vectors, q, hash, subjects, limit, slots);
            && |c.important| + |c.explored| <= limit
            && |c.explored| == Least(slots, |Rows(vectors, q, subjects, false)|)
            && |c.important| == Least(limit - |c.explored|, |Rows(vectors, q, subjects, true)|)
            && Distinct(c.important) && Distinct(c.explored)
            && (forall r :: r in c.important ==> r.ranked && r.subject in subjects && r == RowOf(vectors, q, r.subject))
            && (forall r :: r in c.explored ==> !r.ranked && r.subject in subjects && r == RowOf(vectors, q, r.subject))
  {
    SortedRows(vectors, q, ByHash(hash), subjects, false);
    SortedRows(vectors, q, ByImportance, subjects, true);
    TakeKeeps(Sort(ByHash(hash), Rows(vectors, q, subjects, false)), slots);
    TakeKeeps(Sort(ByImportance, Rows(vectors, q, subjects, true)),
              limit - |Chosen(vectors, q, hash, subjects, limit, slots).explored|);
  }

  /** No ranked subject left out sorts before a selected ranked one. */
  lemma NothingBetterOmitted(vectors: V.Vectors, q: Request, hash: string -> nat, subjects: seq<string>, limit: nat,
                             slots: nat, r: Row, s: string)
    requires slots <= limit && Distinct(subjects) && s in subjects && RowOf(vectors, q, s).ranked
    requires r in Chosen(vectors, q, hash, subjects, limit, slots).important
    requires RowOf(vectors, q, s) !in Chosen(vectors, q, hash, subjects, limit, slots).important
    ensures !Precedes(ByImportance, RowOf(vectors, q, s), r)
  {
    SortedRows(vectors, q, ByImportance, subjects, true);
    TakeIsBest(ByImportance, Sort(ByImportance, Rows(vectors, q, subjects, true)),
               limit - |Chosen(vectors, q, hash, subjects, limit, slots).explored|, r, RowOf(vectors, q, s));
  }

  // ----- the order, in numbers

  /** `a` comes before `b` in the order of their first different characters, or is a proper prefix. */
  ghost predicate TextBefore(a: string, b: string) {
    exists k: nat :: Parts(a, b, k) && (if k == |a| then k < |b| else k < |b| && a[k] < b[k])
  }

  /** The first `k` characters agree. */
  ghost predicate Parts(a: string, b: string, k: nat) { k <= |a| && k <= |b| && a[..k] == b[..k] }

  lemma {:induction false} TextLessIff(a: string, b: string)
    ensures TextLess(a, b) <==> TextBefore(a, b)
  {
    if a == [] || b == [] || a[0] != b[0] {
      assert Parts(a, b, 0);
      forall k: nat ensures Parts(a, b, k) && k > 0 ==> a != [] && b != [] && a[0] == b[0] { FirstAgrees(a, b, k); }
    } else {
      TextLessIff(a[1..], b[1..]);
      BeforeTail(a, b);
    }
  }

  lemma FirstAgrees(a: string, b: string, k: nat)
    ensures Parts(a, b, k) && k > 0 ==> a != [] && b != [] && a[0] == b[0]
  {
    if Parts(a, b, k) && k > 0 { assert a[0] == a[..k][0] && b[0] == b[..k][0]; }
  }

  lemma BeforeTail(a: string, b: string)
    requires a != [] && b != [] && a[0] == b[0]
    ensures TextBefore(a, b) <==> TextBefore(a[1..], b[1..])
  {
    var c, e := a[1..], b[1..];
    forall k: nat ensures Parts(c, e, k) <==> Parts(a, b, k + 1) {
      if Parts(c, e, k) { assert a[..k + 1] == [a[0]] + c[..k] && b[..k + 1] == [b[0]] + e[..k]; }
      if Parts(a, b, k + 1) { assert c[..k] == a[..k + 1][1..] && e[..k] == b[..k + 1][1..]; }
    }
    if TextBefore(c, e) {
      var k: nat :| Parts(c, e, k) && (if k == |c| then k < |e| else k < |e| && c[k] < e[k]);
      assert Parts(a, b, k + 1);
    }
    if TextBefore(a, b) {
      var k: nat :| Parts(a, b, k) && (if k == |a| then k < |b| else k < |b| && a[k] < b[k]);
      assert k > 0 && Parts(c, e, k - 1);
    }
  }

  /** `r` is at least as important as `t`: a higher score, or an equal one and more confidence, or both
      equal and a subject that is not later as text. */
  ghost predicate AtLeastAs(r: Row, t: Row) {
    && t.score <= r.score
    && (t.score == r.score ==> t.confidence <= r.confidence)
    && (t.score == r.score && t.confidence == r.confidence ==> !TextBefore(t.subject, r.subject))
  }

  /** Every selected ranked subject is at least as important as every ranked one left out. */
  lemma OmittedNotMoreImportant(vectors: V.Vectors, q: Request, hash: string -> nat, subjects: seq<string>, limit: nat,
                                slots: nat, r: Row, s: string)
    requires slots <= limit && Distinct(subjects) && s in subjects && RowOf(vectors, q, s).ranked
    requires r in Chosen(vectors, q, hash, subjects, limit, slots).important
    requires RowOf(vectors, q, s) !in Chosen(vectors, q, hash, subjects, limit, slots).important
    ensures AtLeastAs(r, RowOf(vectors, q, s))
  {
    NothingBetterOmitted(vectors, q, hash, subjects, limit, slots, r, s);
    TextLessIff(s, r.subject);
    TextLessIff(RowOf(vectors, q, s).subject, r.subject);
  }

  /** Along the selection the rows are less and less important. */
  lemma SelectionFalls(vectors: V.Vectors, q: Request, hash: string -> nat, subjects: seq<string>, limit: nat,
                       slots: nat, i: nat, j: nat)
    requires slots <= limit && Distinct(subjects)
    requires i < j < |Chosen(vectors, q, hash, subjects, limit, slots).important|
    ensures var rows := Chosen(vectors, q, hash, subjects, limit, slots).important; AtLeastAs(rows[i], rows[j])
  {
    SortedRows(vectors, q, ByImportance, subjects, true);
    var rows := Chosen(vectors, q, hash, subjects, limit, slots).important;
    assert !Precedes(ByImportance, rows[j], rows[i]);
    TextLessIff(rows[j].subject, rows[i].subject);
  }

  /** The reserve goes to the unranked subjects with the least hashes. */
  lemma ReserveIsLeast(vectors: V.Vectors, q: Request, hash: string -> nat, subjects: seq<string>, limit: nat,
                       slots: nat, r: Row, s: string)
    requires slots <= limit && Distinct(subjects) && s in subjects && !RowOf(vectors, q, s).ranked
    requires r in Chosen(vectors, q, hash, subjects, limit, slots).explored
    requires RowOf(vectors, q, s) !in Chosen(vectors, q, hash, subjects, limit, slots).explored
    ensures hash(r.subject) <= hash(s)
  {
    SortedRows(vectors, q, ByHash(hash), subjects, false);
    TakeIsBest(ByHash(hash), Sort(ByHash(hash), Rows(vectors, q, subjects, false)), slots, r, RowOf(vectors, q, s));
  }

  /** What is said of a subject is what its vector says; a missing vector reads 500, 0, unranked. */
  lemma RowReads(vectors: V.Vectors, q: Request, s: string)
    ensures var r, key := RowOf(vectors, q, s), EvidenceFold.Importance(s, q.context, q.objective, q.horizon);
            r.subject == s &&
            if key in vectors && q.objective != Some("")
            then (r.score, r.confidence) == (vectors[key].score, vectors[key].confidence) &&
                 (r.ranked <==> vectors[key].band != Unranked)
            else (r.score, r.confidence, r.ranked) == (500, 0, false)
  {
  }

  /** A chosen subject appears in one of the two lists only. */
  lemma ChoicesDisjoint(vectors: V.Vectors, q: Request, hash: string -> nat, subjects: seq<string>, limit: nat,
                        slots: nat, r: Row, s: Row)
    requires slots <= limit && Distinct(subjects)
    requires r in Chosen(vectors, q, hash, subjects, limit, slots).important
    requires s in Chosen(vectors, q, hash, subjects, limit, slots).explored
    ensures r.subject != s.subject
  {
    ChosenGuarantees(vectors, q, hash, subjects, limit, slots);
  }

  ghost predicate NoCollision(hash: string -> nat, refs: seq<string>) {
    forall s, t :: s in refs && t in refs && hash(s) == hash(t) ==> s == t
  }

  lemma SameRows(rows: seq<Row>, others: seq<Row>)
    requires Distinct(rows) && Distinct(others) && forall r :: r in rows <==> r in others
    ensures multiset(rows) == multiset(others)
  {
    forall r ensures multiset(rows)[r] == multiset(others)[r] {
      CountDistinct(rows, r);
      CountDistinct(others, r);
      assert r in rows <==> r in others;
    }
  }

  lemma Separated(o: Order, a: Row, b: Row)
    requires a.subject != b.subject && (o.ByHash? ==> o.hash(a.subject) != o.hash(b.subject))
    ensures Precedes(o, a, b) || Precedes(o, b, a)
  {
    TextTotal(a.subject, b.subject);
  }

  lemma SortedStrict(vectors: V.Vectors, q: Request, o: Order, subjects: seq<string>, ranked: bool)
    requires o.ByHash? ==> NoCollision(o.hash, subjects)
    ensures Strict(o, SortedOf(vectors, q, o, subjects, ranked))
  {
    var rows := Rows(vectors, q, subjects, ranked);
    SortSorts(o, rows);
    var sorted := Sort(o, rows);
    forall i, j | 0 <= i < |sorted| && 0 <= j < |sorted| && sorted[i] != sorted[j]
      ensures Precedes(o, sorted[i], sorted[j]) || Precedes(o, sorted[j], sorted[i])
    {
      assert sorted[i] in multiset(rows) && sorted[j] in multiset(rows);
      Separated(o, sorted[i], sorted[j]);
    }
  }

  lemma SameSort(vectors: V.Vectors, q: Request, o: Order, xs: seq<string>, ys: seq<string>, ranked: bool)
    requires Distinct(xs) && Distinct(ys) && forall s :: s in xs <==> s in ys
    requires o.ByHash? ==> NoCollision(o.hash, xs)
    ensures SortedOf(vectors, q, o, xs, ranked) == SortedOf(vectors, q, o, ys, ranked)
  {
    var rx, ry := Rows(vectors, q, xs, ranked), Rows(vectors, q, ys, ranked);
    RowsDistinct(vectors, q, xs, ranked);
    RowsDistinct(vectors, q, ys, ranked);
    SameRows(rx, ry);
    SortSorts(o, rx);
    SortSorts(o, ry);
    SortedStrict(vectors, q, o, xs, ranked);
    SortedUnique(o, Sort(o, rx), Sort(o, ry));
  }

  lemma ChosenSame(vectors: V.Vectors, q: Request, hash: string -> nat, xs: seq<string>, ys: seq<string>, limit: nat,
                   slots: nat)
    requires slots <= limit && Distinct(xs) && Distinct(ys) && forall s :: s in xs <==> s in ys
    requires NoCollision(hash, xs)
    ensures Chosen(vectors, q, hash, xs, limit, slots) == Chosen(vectors, q, hash, ys, limit, slots)
  {
    SameSort(vectors, q, ByHash(hash), xs, ys, false);
    SameSort(vectors, q, ByImportance, xs, ys, true);
  }

  /** The result does not depend on the order or repetition of the references, as long as no two
      of them collide under the exploration hash. */
  lemma RankedIgnoresOrder(vectors: V.Vectors, q: Request, hash: string -> nat, refs: seq<string>,
                           others: seq<string>, limit: int, slots: int)
    requires forall s :: s in refs <==> s in others
    requires NoCollision(hash, refs)
    ensures Ranked(vectors, q, hash, refs, limit, slots) == Ranked(vectors, q, hash, others, limit, slots)
  {
    if 0 <= slots <= limit { ChosenSame(vectors, q, hash, Subjects(refs), Subjects(others), limit, slots); }
  }
}
