/** The entity registry with its alias index, the incremental duplicate detector and the
    mention resolver (packs/entity/behaviors.py). */
module EntityIndex {
  import opened Prelude
  import opened EntitySimilarity

  type Id = string

  type AliasMap = map<string, seq<Id>>

  /** Registry in insertion order, and the index label -> ids. */
  datatype Index = Index(order: seq<Id>, entries: map<Id, Entry>, aliases: AliasMap)

  const EMPTY := Index([], map[], map[])

  function Lookup(aliases: AliasMap, key: string): seq<Id> {
    if key in aliases then aliases[key] else []
  }

  /** `id` is appended, once, to the list of every non-empty label. */
  function AddLabels(aliases: AliasMap, id: Id, labels: seq<string>): AliasMap {
    map key | key in aliases.Keys + (set x | x in labels && x != "") ::
      if key in labels && key != "" && id !in Lookup(aliases, key)
      then Lookup(aliases, key) + [id]
      else Lookup(aliases, key)
  }

  function Recorded(ops: TextOps, s: Index, id: Id, e: Entry): Index {
    if id == "" then s
    else Index(if id in s.entries then s.order else s.order + [id],
               s.entries[id := e],
               AddLabels(s.aliases, id, Labels(ops, e)))
  }

  ghost predicate WellFormed(s: Index) {
    && Distinct(s.order)
    && (forall id :: id in s.order <==> id in s.entries)
    && "" !in s.entries
  }

  ghost predicate Indexed(s: Index, key: string, id: Id) { id in Lookup(s.aliases, key) }

  ghost predicate Carries(ops: TextOps, s: Index, key: string, id: Id) {
    key != "" && id in s.entries && key in Labels(ops, s.entries[id])
  }

  /** The index holds an id under a label exactly when its entry carries that non-empty label. */
  ghost predicate Exact(ops: TextOps, s: Index) {
    forall key, id :: Indexed(s, key, id) <==> Carries(ops, s, key, id)
  }

  /** The replaced entry, if any, loses no non-empty label. */
  ghost predicate LosesNoLabel(ops: TextOps, s: Index, id: Id, e: Entry) {
    forall key :: Carries(ops, s, key, id) ==> key in Labels(ops, e)
  }

  lemma WellFormedKept(ops: TextOps, s: Index, id: Id, e: Entry)
    requires WellFormed(s)
    ensures WellFormed(Recorded(ops, s, id, e))
  {
    var t := Recorded(ops, s, id, e);
    if id != "" && id !in s.entries {
      assert forall x :: x in t.order <==> x in s.order || x == id;
    }
  }

  lemma LookupAfter(aliases: AliasMap, id: Id, keys: seq<string>, key: string)
    ensures Lookup(AddLabels(aliases, id, keys), key) ==
            if key in keys && key != "" && id !in Lookup(aliases, key)
            then Lookup(aliases, key) + [id] else Lookup(aliases, key)
  {
  }

  lemma RecordedPointwise(ops: TextOps, s: Index, id: Id, e: Entry, key: string, x: Id)
    requires id != ""
    ensures Indexed(Recorded(ops, s, id, e), key, x) <==>
            Indexed(s, key, x) || (x == id && key != "" && key in Labels(ops, e))
    ensures Carries(ops, Recorded(ops, s, id, e), key, x) <==>
            if x == id then key != "" && key in Labels(ops, e) else Carries(ops, s, key, x)
  {
  }

  /** Recording keeps the index exact if and only if the entry it replaces, if any, loses no
      non-empty label. */
  lemma ExactKeptIff(ops: TextOps, s: Index, id: Id, e: Entry)
    requires Exact(ops, s) && id != ""
    ensures Exact(ops, Recorded(ops, s, id, e)) <==> LosesNoLabel(ops, s, id, e)
  {
    var t := Recorded(ops, s, id, e);
    forall key, x
      ensures Indexed(t, key, x) <==> Carries(ops, s, key, x) || (x == id && key != "" && key in Labels(ops, e))
      ensures Carries(ops, t, key, x) <==>
              if x == id then key != "" && key in Labels(ops, e) else Carries(ops, s, key, x)
    {
      RecordedPointwise(ops, s, id, e, key, x);
      assert Indexed(s, key, x) <==> Carries(ops, s, key, x);
    }
    if !LosesNoLabel(ops, s, id, e) {
      var key :| Carries(ops, s, key, id) && key !in Labels(ops, e);
      assert Indexed(t, key, id) && !Carries(ops, t, key, id);
    }
  }

  // ----- duplicate detection

  datatype Candidate = Candidate(a: Id, b: Id, score: real, reasons: seq<Reason>)

  /** The candidate one comparison gives, if any. */
  function Flag(ops: TextOps, threshold: real, id: Id, e: Entry, x: Id, other: Entry): seq<Candidate> {
    if x != id && Score(ops, e, other) >= threshold
    then [Candidate(id, x, Score(ops, e, other), Reasons(ops, e, other))] else []
  }

  /** One candidate for each recorded entity other than `id` that is similar enough. */
  function Detected(ops: TextOps, threshold: real, s: Index, id: Id, e: Entry, order: seq<Id>): seq<Candidate>
    requires forall x :: x in order ==> x in s.entries
  {
    if order == [] then []
    else
      var x := order[|order| - 1];
      Detected(ops, threshold, s, id, e, order[..|order| - 1]) + Flag(ops, threshold, id, e, x, s.entries[x])
  }

  datatype Arrival = Arrival(id: Id, entry: Entry)

  /** What happens to the pack: an entity is created, or a new process takes the run over.  Registry
      and alias index are the process's own and nothing rebuilds them; the graph, with its candidates,
      lives on. */
  datatype Event = Arrived(arrival: Arrival) | Restart

  /** On each object.created event the recorder runs first, then the detector. */
  function IndexAfter(ops: TextOps, run: seq<Event>): Index {
    if run == [] then EMPTY
    else
      match run[|run| - 1]
      case Restart => EMPTY
      case Arrived(a) => Recorded(ops, IndexAfter(ops, run[..|run| - 1]), a.id, a.entry)
  }

  ghost function CandidatesAfter(ops: TextOps, threshold: real, run: seq<Event>): seq<Candidate>
  {
    if run == [] then []
    else
      var before := CandidatesAfter(ops, threshold, run[..|run| - 1]);
      match run[|run| - 1]
      case Restart => before
      case Arrived(a) =>
        var s := IndexAfter(ops, run);
        IndexWellFormed(ops, run);
        before + (if a.id == "" then [] else Detected(ops, threshold, s, a.id, a.entry, s.order))
  }

  lemma {:induction false} IndexWellFormed(ops: TextOps, run: seq<Event>)
    ensures WellFormed(IndexAfter(ops, run))
  {
    if run == [] || run[|run| - 1].Restart? {
    } else {
      var a := run[|run| - 1].arrival;
      IndexWellFormed(ops, run[..|run| - 1]);
      WellFormedKept(ops, IndexAfter(ops, run[..|run| - 1]), a.id, a.entry);
    }
  }

  /** The entities created since the last restart. */
  function Since(run: seq<Event>): seq<Arrival> {
    if run == [] || run[|run| - 1].Restart? then [] else Since(run[..|run| - 1]) + [run[|run| - 1].arrival]
  }

  /** A restart lies between the two places. */
  predicate Fenced(run: seq<Event>, i: nat, j: nat) { exists k :: i <= k < j && k < |run| && run[k].Restart? }

  predicate Joins(c: Candidate, x: Id, y: Id) {
    (c.a == x && c.b == y) || (c.a == y && c.b == x)
  }

  function JoinCount(cs: seq<Candidate>, x: Id, y: Id): nat {
    if cs == [] then 0
    else JoinCount(cs[..|cs| - 1], x, y) + if Joins(cs[|cs| - 1], x, y) then 1 else 0
  }

  lemma {:induction false} JoinCountConcat(cs: seq<Candidate>, ds: seq<Candidate>, x: Id, y: Id)
    ensures JoinCount(cs + ds, x, y) == JoinCount(cs, x, y) + JoinCount(ds, x, y)
  {
    if ds == [] {
      assert cs + ds == cs;
    } else {
      var init := ds[..|ds| - 1];
      assert (cs + ds)[..|cs + ds| - 1] == cs + init;
      JoinCountConcat(cs, init, x, y);
    }
  }

  /** Object ids are fresh and non-empty, as the graph makes them. */
  ghost predicate FreshIds(run: seq<Event>) {
    && (forall i, j :: 0 <= i < j < |run| && run[i].Arrived? && run[j].Arrived? ==>
        run[i].arrival.id != run[j].arrival.id)
    && (forall i :: 0 <= i < |run| && run[i].Arrived? ==> run[i].arrival.id != "")
  }

  ghost predicate HoldsRun(s: Index, run: seq<Arrival>) {
    && |s.order| == |run|
    && (forall i :: 0 <= i < |run| ==>
          s.order[i] == run[i].id && run[i].id in s.entries && s.entries[run[i].id] == run[i].entry)
  }

  /** What was created since the last restart stands in the run, after it. */
  lemma {:induction false} SinceStands(run: seq<Event>, k: nat) returns (i: nat)
    requires k < |Since(run)|
    ensures i < |run| && run[i] == Arrived(Since(run)[k]) && !Fenced(run, i, |run|)
  {
    if k == |Since(run)| - 1 {
      i := |run| - 1;
    } else {
      i := SinceStands(run[..|run| - 1], k);
    }
  }

  lemma {:induction false} StandsSince(run: seq<Event>, i: nat) returns (k: nat)
    requires i < |run| && run[i].Arrived? && !Fenced(run, i, |run|)
    ensures k < |Since(run)| && Since(run)[k] == run[i].arrival
  {
    var init := run[..|run| - 1];
    assert run[|run| - 1].Arrived?;
    if i == |run| - 1 {
      k := |Since(run)| - 1;
    } else {
      assert Fenced(init, i, |init|) ==> Fenced(run, i, |run|);
      k := StandsSince(init, i);
    }
  }

  lemma HoldsRunStep(ops: TextOps, s: Index, run: seq<Arrival>, last: Arrival)
    requires HoldsRun(s, run) && WellFormed(s) && last.id != ""
    requires forall k :: 0 <= k < |run| ==> run[k].id != last.id
    ensures last.id !in s.entries
    ensures HoldsRun(Recorded(ops, s, last.id, last.entry), run + [last])
  {
    assert last.id !in s.order;
  }

  /** With fresh ids the registry holds exactly what was created since the last restart, in order, and
      the alias index is exact. */
  lemma {:induction false} IndexHoldsRun(ops: TextOps, run: seq<Event>)
    requires FreshIds(run)
    ensures HoldsRun(IndexAfter(ops, run), Since(run)) && Exact(ops, IndexAfter(ops, run))
  {
    if run == [] || run[|run| - 1].Restart? {
    } else {
      var init, last := run[..|run| - 1], run[|run| - 1].arrival;
      var s := IndexAfter(ops, init);
      IndexHoldsRun(ops, init);
      IndexWellFormed(ops, init);
      forall k | 0 <= k < |Since(init)| ensures Since(init)[k].id != last.id {
        var i := SinceStands(init, k);
        assert run[i] == init[i];
      }
      HoldsRunStep(ops, s, Since(init), last);
      ExactKeptIff(ops, s, last.id, last.entry);
    }
  }

  lemma HeldAt(ops: TextOps, run: seq<Event>, s: Index, k: nat)
    requires FreshIds(run) && s == IndexAfter(ops, run)
    ensures |s.order| == |Since(run)|
    ensures k < |s.order| ==>
              var a := Since(run)[k]; s.order[k] == a.id && a.id in s.entries && s.entries[a.id] == a.entry
  {
    IndexHoldsRun(ops, run);
  }

  /** An entity is registered if and only if no restart came after it. */
  lemma RegisteredIff(ops: TextOps, run: seq<Event>, i: nat)
    requires FreshIds(run) && i < |run| && run[i].Arrived?
    ensures var s, a := IndexAfter(ops, run), run[i].arrival;
            (a.id in s.order <==> !Fenced(run, i, |run|)) &&
                (a.id in s.order ==> a.id in s.entries && s.entries[a.id] == a.entry)
  {
    var s, a := IndexAfter(ops, run), run[i].arrival;
    IndexHoldsRun(ops, run);
    if a.id in s.order {
      var k: nat :| k < |s.order| && s.order[k] == a.id;
      var j := SinceStands(run, k);
      assert i == j || i < j || j < i;
    }
    if !Fenced(run, i, |run|) {
      var k := StandsSince(run, i);
      assert s.order[k] == a.id;
    }
  }

  lemma FlagCount(ops: TextOps, threshold: real, id: Id, e: Entry, z: Id, other: Entry, x: Id, y: Id)
    requires x != y
    ensures JoinCount(Flag(ops, threshold, id, e, z, other), x, y) ==
            if Score(ops, e, other) >= threshold && ((x == id && z == y) || (y == id && z == x)) then 1 else 0
  {
    var flags := Flag(ops, threshold, id, e, z, other);
    if flags != [] { assert flags[..0] == []; }
  }

  lemma {:induction false} DetectedCount(ops: TextOps, threshold: real, s: Index, id: Id, e: Entry, order: seq<Id>,
                                         x: Id, y: Id)
    requires Distinct(order) && x != y
    requires forall z :: z in order ==> z in s.entries
    ensures JoinCount(Detected(ops, threshold, s, id, e, order), x, y) ==
            if x == id && y in order && Score(ops, e, s.entries[y]) >= threshold then 1
            else if y == id && x in order && Score(ops, e, s.entries[x]) >= threshold then 1
            else 0
  {
    if order == [] {
    } else {
      var init, z := order[..|order| - 1], order[|order| - 1];
      assert order == init + [z];
      DetectedCount(ops, threshold, s, id, e, init, x, y);
      JoinCountConcat(Detected(ops, threshold, s, id, e, init), Flag(ops, threshold, id, e, z, s.entries[z]), x, y);
      FlagCount(ops, threshold, id, e, z, s.entries[z], x, y);
    }
  }

  /** Each unordered pair is flagged exactly once when its similarity reaches the threshold and no
      restart lies between the two arrivals, and never otherwise. */
  lemma {:induction false} EachSimilarPairOnce(ops: TextOps, threshold: real, run: seq<Event>, i: nat, j: nat)
    requires FreshIds(run) && i < j < |run| && run[i].Arrived? && run[j].Arrived?
    ensures var x, y := run[i].arrival, run[j].arrival;
            JoinCount(CandidatesAfter(ops, threshold, run), x.id, y.id) ==
            if Score(ops, x.entry, y.entry) >= threshold && !Fenced(run, i, j) then 1 else 0
  {
    var init := run[..|run| - 1];
    if j == |run| - 1 {
      LastArrivalCount(ops, threshold, run, i);
      NotYetFlagged(ops, threshold, init, run[j].arrival.id, run[i].arrival.id);
    } else {
      EarlierPairKept(ops, threshold, run, run[i].arrival.id, run[j].arrival.id);
      EachSimilarPairOnce(ops, threshold, init, i, j);
      FencedPrefix(run, i, j);
    }
  }

  lemma FencedPrefix(run: seq<Event>, i: nat, j: nat)
    requires j < |run|
    ensures Fenced(run[..|run| - 1], i, j) <==> Fenced(run, i, j)
  {
    var init := run[..|run| - 1];
    if k :| i <= k < j && run[k].Restart? { assert init[k].Restart?; }
  }

  /** What the last arrival adds for a pair it belongs to. */
  lemma LastArrivalCount(ops: TextOps, threshold: real, run: seq<Event>, i: nat)
    requires FreshIds(run) && i < |run| - 1 && run[i].Arrived? && run[|run| - 1].Arrived?
    ensures var x, y := run[i].arrival, run[|run| - 1].arrival;
            JoinCount(CandidatesAfter(ops, threshold, run), x.id, y.id) ==
            JoinCount(CandidatesAfter(ops, threshold, run[..|run| - 1]), x.id, y.id) +
            if Score(ops, x.entry, y.entry) >= threshold && !Fenced(run, i, |run| - 1) then 1 else 0
  {
    var x, y, s := run[i].arrival, run[|run| - 1].arrival, IndexAfter(ops, run);
    IndexWellFormed(ops, run);
    JoinCountConcat(CandidatesAfter(ops, threshold, run[..|run| - 1]),
                    Detected(ops, threshold, s, y.id, y.entry, s.order), x.id, y.id);
    LastDetected(ops, threshold, run, i);
  }

  lemma LastDetected(ops: TextOps, threshold: real, run: seq<Event>, i: nat)
    requires FreshIds(run) && i < |run| - 1 && run[i].Arrived? && run[|run| - 1].Arrived?
    requires WellFormed(IndexAfter(ops, run))
    ensures var x, y, s := run[i].arrival, run[|run| - 1].arrival, IndexAfter(ops, run);
            JoinCount(Detected(ops, threshold, s, y.id, y.entry, s.order), x.id, y.id) ==
            if Score(ops, x.entry, y.entry) >= threshold && !Fenced(run, i, |run| - 1) then 1 else 0
  {
    var x, y, s := run[i].arrival, run[|run| - 1].arrival, IndexAfter(ops, run);
    RegisteredIff(ops, run, i);
    DetectedCount(ops, threshold, s, y.id, y.entry, s.order, x.id, y.id);
    SimilaritySymmetric(ops, x.entry, y.entry);
    assert Fenced(run, i, |run|) <==> Fenced(run, i, |run| - 1);
  }

  /** A pair the last event does not belong to is not flagged by it. */
  lemma EarlierPairKept(ops: TextOps, threshold: real, run: seq<Event>, x: Id, y: Id)
    requires FreshIds(run) && run != [] && x != y
    requires run[|run| - 1].Arrived? ==> run[|run| - 1].arrival.id !in {x, y}
    ensures JoinCount(CandidatesAfter(ops, threshold, run), x, y) ==
            JoinCount(CandidatesAfter(ops, threshold, run[..|run| - 1]), x, y)
  {
    if run[|run| - 1].Arrived? {
      var a, s := run[|run| - 1].arrival, IndexAfter(ops, run);
      IndexWellFormed(ops, run);
      JoinCountConcat(CandidatesAfter(ops, threshold, run[..|run| - 1]),
                      Detected(ops, threshold, s, a.id, a.entry, s.order), x, y);
      DetectedCount(ops, threshold, s, a.id, a.entry, s.order, x, y);
    }
  }

  lemma {:induction false} NotYetFlagged(ops: TextOps, threshold: real, run: seq<Event>, id: Id, other: Id)
    requires FreshIds(run) && id != other
    requires forall i :: 0 <= i < |run| && run[i].Arrived? ==> run[i].arrival.id != id
    ensures JoinCount(CandidatesAfter(ops, threshold, run), other, id) == 0
  {
    if run == [] {
    } else {
      NotYetFlagged(ops, threshold, run[..|run| - 1], id, other);
      if run[|run| - 1].Arrived? {
        var a, s := run[|run| - 1].arrival, IndexAfter(ops, run);
        IndexHoldsRun(ops, run);
        IndexWellFormed(ops, run);
        forall k | 0 <= k < |s.order| ensures s.order[k] != id { var i := SinceStands(run, k); }
        JoinCountConcat(CandidatesAfter(ops, threshold, run[..|run| - 1]),
                        Detected(ops, threshold, s, a.id, a.entry, s.order), other, id);
        DetectedCount(ops, threshold, s, a.id, a.entry, s.order, other, id);
      }
    }
  }

  /** Both entities were created by one process. */
  ghost predicate Together(run: seq<Event>, x: Arrival, y: Arrival) {
    exists i, j :: 0 <= i < |run| && 0 <= j < |run| && run[i] == Arrived(x) && run[j] == Arrived(y) &&
        !Fenced(run, i, j) && !Fenced(run, j, i)
  }

  /** Two runs over the same entities flag a pair equally often if and only if it is not similar
      enough, or both runs create it in one process, or neither does. */
  lemma FlaggedPairsIgnoreOrder(ops: TextOps, threshold: real, run: seq<Event>, other: seq<Event>, x: Arrival,
                                y: Arrival)
    requires FreshIds(run) && FreshIds(other) && x.id != y.id
    requires Arrived(x) in run && Arrived(y) in run && Arrived(x) in other && Arrived(y) in other
    ensures JoinCount(CandidatesAfter(ops, threshold, run), x.id, y.id) ==
            JoinCount(CandidatesAfter(ops, threshold, other), x.id, y.id) <==>
            Score(ops, x.entry, y.entry) < threshold || (Together(run, x, y) <==> Together(other, x, y))
  {
    PairCount(ops, threshold, run, x, y);
    PairCount(ops, threshold, other, x, y);
  }

  lemma PairCount(ops: TextOps, threshold: real, run: seq<Event>, x: Arrival, y: Arrival)
    requires FreshIds(run) && Arrived(x) in run && Arrived(y) in run && x.id != y.id
    ensures JoinCount(CandidatesAfter(ops, threshold, run), x.id, y.id) ==
            if Score(ops, x.entry, y.entry) >= threshold && Together(run, x, y) then 1 else 0
  {
    var i: nat :| i < |run| && run[i] == Arrived(x);
    var j: nat :| j < |run| && run[j] == Arrived(y);
    SimilaritySymmetric(ops, x.entry, y.entry);
    TogetherIff(run, x, y, i, j);
    if i < j {
      EachSimilarPairOnce(ops, threshold, run, i, j);
    } else {
      EachSimilarPairOnce(ops, threshold, run, j, i);
      JoinCountSwap(CandidatesAfter(ops, threshold, run), x.id, y.id);
    }
  }

  lemma TogetherIff(run: seq<Event>, x: Arrival, y: Arrival, i: nat, j: nat)
    requires FreshIds(run) && i < |run| && j < |run| && run[i] == Arrived(x) && run[j] == Arrived(y)
    ensures Together(run, x, y) <==> !Fenced(run, i, j) && !Fenced(run, j, i)
  {
    if Together(run, x, y) {
      var a, b :| 0 <= a < |run| && 0 <= b < |run| && run[a] == Arrived(x) && run[b] == Arrived(y) &&
        !Fenced(run, a, b) && !Fenced(run, b, a);
      assert a == i || a < i || i < a;
      assert b == j || b < j || j < b;
    }
  }

  lemma JoinCountSwap(cs: seq<Candidate>, x: Id, y: Id)
    ensures JoinCount(cs, x, y) == JoinCount(cs, y, x)
  {
  }

  lemma DetectedStep(ops: TextOps, threshold: real, s: Index, id: Id, e: Entry, order: seq<Id>, k: nat)
    requires k < |order| && forall x :: x in order ==> x in s.entries
    ensures Detected(ops, threshold, s, id, e, order[..k + 1]) ==
            Detected(ops, threshold, s, id, e, order[..k]) + Flag(ops, threshold, id, e, order[k], s.entries[order[k]])
  {
    assert order[..k + 1][..k] == order[..k];
  }

  lemma {:induction false} DetectedFrom(ops: TextOps, threshold: real, s: Index, id: Id, e: Entry, order: seq<Id>,
                                        c: Candidate) returns (k: nat)
    requires (forall x :: x in order ==> x in s.entries) && c in Detected(ops, threshold, s, id, e, order)
    ensures k < |order| && order[k] != id && c.score >= threshold
    ensures var other := s.entries[order[k]];
            c == Candidate(id, order[k], Score(ops, e, other), Reasons(ops, e, other))
  {
    var init := order[..|order| - 1];
    if c in Detected(ops, threshold, s, id, e, init) {
      k := DetectedFrom(ops, threshold, s, id, e, init, c);
    } else {
      k := |order| - 1;
    }
  }

  /** The candidate names two entities of one process, the later first, with their score and reasons, and
      the score reaches the threshold. */
  ghost predicate FlagsPair(ops: TextOps, threshold: real, run: seq<Event>, i: nat, j: nat, c: Candidate) {
    && i < j < |run| && run[i].Arrived? && run[j].Arrived? && !Fenced(run, i, j) && c.score >= threshold
    && var x, y := run[i].arrival, run[j].arrival;
       c == Candidate(y.id, x.id, Score(ops, y.entry, x.entry), Reasons(ops, y.entry, x.entry))
  }

  /** Every candidate is one of those: none names an entity twice, none is below the threshold. */
  lemma {:induction false} CandidateMeans(ops: TextOps, threshold: real, run: seq<Event>, c: Candidate)
    returns (i: nat, j: nat)
    requires FreshIds(run) && c in CandidatesAfter(ops, threshold, run)
    ensures FlagsPair(ops, threshold, run, i, j, c)
  {
    if run == [] {
      assert false;
    } else if c in CandidatesAfter(ops, threshold, run[..|run| - 1]) {
      FreshPrefix(run);
      i, j := CandidateMeans(ops, threshold, run[..|run| - 1], c);
      PairKept(ops, threshold, run, i, j, c);
    } else {
      j := |run| - 1;
      i := LastCandidate(ops, threshold, run, c);
    }
  }

  lemma FreshPrefix(run: seq<Event>)
    requires FreshIds(run) && run != []
    ensures FreshIds(run[..|run| - 1])
  {
  }

  lemma PairKept(ops: TextOps, threshold: real, run: seq<Event>, i: nat, j: nat, c: Candidate)
    requires run != [] && FlagsPair(ops, threshold, run[..|run| - 1], i, j, c)
    ensures FlagsPair(ops, threshold, run, i, j, c)
  {
    FencedPrefix(run, i, j);
  }

  lemma FencedMore(run: seq<Event>, i: nat, j: nat, l: nat)
    requires j <= l
    ensures Fenced(run, i, j) ==> Fenced(run, i, l)
  {
  }

  lemma NewlyDetected(ops: TextOps, threshold: real, run: seq<Event>, c: Candidate, s: Index)
    requires run != [] && s == IndexAfter(ops, run) && c in CandidatesAfter(ops, threshold, run)
    requires c !in CandidatesAfter(ops, threshold, run[..|run| - 1])
    ensures run[|run| - 1].Arrived? && WellFormed(s)
    ensures var y := run[|run| - 1].arrival; c in Detected(ops, threshold, s, y.id, y.entry, s.order)
  {
    IndexWellFormed(ops, run);
  }

  lemma LastCandidate(ops: TextOps, threshold: real, run: seq<Event>, c: Candidate) returns (i: nat)
    requires FreshIds(run) && c in CandidatesAfter(ops, threshold, run)
    requires run != [] && c !in CandidatesAfter(ops, threshold, run[..|run| - 1])
    ensures FlagsPair(ops, threshold, run, i, |run| - 1, c)
  {
    var s := IndexAfter(ops, run);
    NewlyDetected(ops, threshold, run, c, s);
    i := DetectedFlags(ops, threshold, run, s, run[|run| - 1].arrival, c);
  }

  lemma DetectedFlags(ops: TextOps, threshold: real, run: seq<Event>, s: Index, y: Arrival, c: Candidate)
    returns (i: nat)
    requires FreshIds(run) && run != [] && run[|run| - 1] == Arrived(y) && s == IndexAfter(ops, run)
    requires WellFormed(s) && c in Detected(ops, threshold, s, y.id, y.entry, s.order)
    ensures FlagsPair(ops, threshold, run, i, |run| - 1, c)
  {
    var k := DetectedFrom(ops, threshold, s, y.id, y.entry, s.order, c);
    HeldAt(ops, run, s, k);
    i := SinceStands(run, k);
    FencedMore(run, i, |run| - 1, |run|);
  }

  // ----- mention resolution

  datatype Mention = Mention(text: string, normalizedName: Option<string>, email: Option<string>)

  function MentionName(m: Mention): string {
    if m.normalizedName.Some? then m.normalizedName.value else m.text
  }

  function MentionIds(m: Mention): map<string, string> {
    if m.email.Some? then map["email" := m.email.value] else map[]
  }

  /** The mention as the similarity score sees it. */
  function AsEntry(m: Mention): Entry { Entry(MentionName(m), [m.text], MentionIds(m)) }

  /** The entity created when nothing matches: the mention's text becomes a label only when
      there is no (non-empty) normalised name. */
  function NewEntity(m: Mention): Entry {
    if m.normalizedName.None? || m.normalizedName.value == "" then Entry(m.text, [], MentionIds(m))
    else if m.normalizedName.value != m.text then Entry(MentionName(m), [m.normalizedName.value], MentionIds(m))
    else Entry(MentionName(m), [], MentionIds(m))
  }

  datatype Decision = Ignored | Link(id: Id) | Fresh(entity: Entry)

  datatype Choice = Choice(id: Option<Id>, score: real)

  function EntryOf(s: Index, id: Id): Entry {
    if id in s.entries then s.entries[id] else Entry("", [], map[])
  }

  /** First best-scoring id of the list; nothing ever stops the scan. */
  function AliasBest(ops: TextOps, s: Index, m: Mention, ids: seq<Id>): Choice {
    if ids == [] then Choice(None, 0.0)
    else
      var before, id := AliasBest(ops, s, m, ids[..|ids| - 1]), ids[|ids| - 1];
      var score := Score(ops, AsEntry(m), EntryOf(s, id));
      if score > before.score then Choice(Some(id), score) else before
  }

  /** The same over the registry, on identifiers only, skipping the alias hits. */
  function IdBest(ops: TextOps, s: Index, m: Mention, ids: seq<Id>, skip: seq<Id>, start: Choice): Choice {
    if ids == [] then start
    else
      var before, id := IdBest(ops, s, m, ids[..|ids| - 1], skip, start), ids[|ids| - 1];
      if id !in skip && Overlap(ops, MentionIds(m), EntryOf(s, id).identifiers) && 1.0 > before.score
      then Choice(Some(id), 1.0)
      else before
  }

  function AliasHits(ops: TextOps, s: Index, m: Mention): seq<Id> { Lookup(s.aliases, ops.Normalize(m.text)) }

  function Chosen(ops: TextOps, threshold: real, s: Index, m: Mention): Choice {
    var hits := AliasHits(ops, s, m);
    var first := AliasBest(ops, s, m, hits);
    if first.score < threshold && m.email.Some? then IdBest(ops, s, m, s.order, hits, first) else first
  }

  /** The decision without early exits and without the auto-accept flag. */
  function Resolution(ops: TextOps, threshold: real, s: Index, m: Mention): Decision {
    if m.text == "" then Ignored
    else
      var c := Chosen(ops, threshold, s, m);
      if c.id.Some? && c.id.value != "" && c.score >= threshold then Link(c.id.value) else Fresh(NewEntity(m))
  }

  lemma {:induction false} AliasBestBounds(ops: TextOps, s: Index, m: Mention, ids: seq<Id>)
    ensures 0.0 <= AliasBest(ops, s, m, ids).score <= 1.0
    ensures AliasBest(ops, s, m, ids).id.None? ==> AliasBest(ops, s, m, ids).score == 0.0
  {
    if ids == [] {
    } else {
      AliasBestBounds(ops, s, m, ids[..|ids| - 1]);
      ScoreBounds(ops, AsEntry(m), EntryOf(s, ids[|ids| - 1]));
    }
  }

  /** Once some prefix reaches 1 the rest of the scan changes nothing. */
  lemma {:induction false} AliasBestStable(ops: TextOps, s: Index, m: Mention, ids: seq<Id>, k: nat)
    requires k <= |ids| && AliasBest(ops, s, m, ids[..k]).score >= 1.0
    ensures AliasBest(ops, s, m, ids) == AliasBest(ops, s, m, ids[..k])
  {
    if k == |ids| {
      assert ids[..k] == ids;
    } else {
      var init := ids[..|ids| - 1];
      assert init[..k] == ids[..k];
      AliasBestStable(ops, s, m, init, k);
      ScoreBounds(ops, AsEntry(m), EntryOf(s, ids[|ids| - 1]));
    }
  }

  lemma {:induction false} IdBestStable(ops: TextOps, s: Index, m: Mention, ids: seq<Id>, skip: seq<Id>,
                                        start: Choice, k: nat)
    requires k <= |ids| && IdBest(ops, s, m, ids[..k], skip, start).score >= 1.0
    ensures IdBest(ops, s, m, ids, skip, start) == IdBest(ops, s, m, ids[..k], skip, start)
  {
    if k == |ids| {
      assert ids[..k] == ids;
    } else {
      var init := ids[..|ids| - 1];
      assert init[..k] == ids[..k];
      IdBestStable(ops, s, m, init, skip, start, k);
    }
  }

  // ----- what the resolver chooses, in closed form

  predicate Matches(ops: TextOps, s: Index, m: Mention, id: Id) {
    m.email.Some? && Overlap(ops, MentionIds(m), EntryOf(s, id).identifiers)
  }

  /** First recorded entity whose identifiers match the mention's. */
  function FirstMatch(ops: TextOps, s: Index, m: Mention, ids: seq<Id>): Option<Id> {
    if ids == [] then None
    else
      var before := FirstMatch(ops, s, m, ids[..|ids| - 1]);
      if before.Some? then before
      else if Matches(ops, s, m, ids[|ids| - 1]) then Some(ids[|ids| - 1])
      else None
  }

  lemma {:induction false} FirstMatchIsFirst(ops: TextOps, s: Index, m: Mention, ids: seq<Id>)
    ensures FirstMatch(ops, s, m, ids).None? <==> forall i :: 0 <= i < |ids| ==> !Matches(ops, s, m, ids[i])
    ensures FirstMatch(ops, s, m, ids).Some? ==>
              exists i :: 0 <= i < |ids| && ids[i] == FirstMatch(ops, s, m, ids).value && Matches(ops, s, m, ids[i]) &&
                          forall j :: 0 <= j < i ==> !Matches(ops, s, m, ids[j])
  {
    if ids == [] {
    } else {
      FirstMatchIsFirst(ops, s, m, ids[..|ids| - 1]);
      assert forall i :: 0 <= i < |ids| - 1 ==> ids[..|ids| - 1][i] == ids[i];
    }
  }

  lemma {:induction false} AliasHitScoresOne(ops: TextOps, s: Index, m: Mention, ids: seq<Id>)
    requires ids != []
    requires Carries(ops, s, ops.Normalize(m.text), ids[0])
    ensures AliasBest(ops, s, m, ids) == Choice(Some(ids[0]), 1.0)
  {
    var one := ids[..1];
    assert one[..0] == [] && one[0] == ids[0];
    var mine := Labels(ops, AsEntry(m));
    assert mine[1] == ops.Normalize(m.text);
    assert ShareLabel(mine, Labels(ops, s.entries[ids[0]]));
    ScoreBounds(ops, AsEntry(m), EntryOf(s, ids[0]));
    AliasBestStable(ops, s, m, ids, 1);
  }

  lemma {:induction false} IdBestIsFirstMatch(ops: TextOps, s: Index, m: Mention, ids: seq<Id>)
    requires m.email.Some?
    ensures IdBest(ops, s, m, ids, [], Choice(None, 0.0)) ==
            var first := FirstMatch(ops, s, m, ids);
            if first.Some? then Choice(first, 1.0) else Choice(None, 0.0)
  {
    if ids == [] {
    } else {
      IdBestIsFirstMatch(ops, s, m, ids[..|ids| - 1]);
    }
  }

  /** For every admissible threshold: the oldest entity that carries the mention's text as a
      label wins; without one, and with a positive threshold, the oldest entity with a matching
      identifier wins; otherwise a fresh entity is made. */
  lemma ResolutionClosedForm(ops: TextOps, threshold: real, s: Index, m: Mention)
    requires WellFormed(s) && Exact(ops, s) && 0.0 <= threshold <= 1.0 && m.text != ""
    ensures Resolution(ops, threshold, s, m) ==
            var hits, first := AliasHits(ops, s, m), FirstMatch(ops, s, m, s.order);
            if hits != [] then Link(hits[0])
            else if threshold > 0.0 && first.Some? then Link(first.value)
            else Fresh(NewEntity(m))
  {
    var hits := AliasHits(ops, s, m);
    if hits != [] {
      assert Indexed(s, ops.Normalize(m.text), hits[0]);
      AliasHitScoresOne(ops, s, m, hits);
    } else {
      FirstMatchIsFirst(ops, s, m, s.order);
      if m.email.Some? {
        IdBestIsFirstMatch(ops, s, m, s.order);
      } else {
        assert forall i :: 0 <= i < |s.order| ==> !Matches(ops, s, m, s.order[i]);
      }
    }
  }

  /** A mention whose identifier matches a recorded entity is given a fresh entity if and only
      if the threshold is 0 and no entity carries its text as a label. */
  lemma IdentifierMatchFreshIff(ops: TextOps, threshold: real, s: Index, m: Mention, id: Id)
    requires WellFormed(s) && Exact(ops, s) && 0.0 <= threshold <= 1.0 && m.text != ""
    requires id in s.entries && Matches(ops, s, m, id)
    ensures Resolution(ops, threshold, s, m).Fresh? <==> threshold == 0.0 && AliasHits(ops, s, m) == []
  {
    ResolutionClosedForm(ops, threshold, s, m);
    FirstMatchIsFirst(ops, s, m, s.order);
    assert id in s.order;
    var i :| 0 <= i < |s.order| && s.order[i] == id;
  }

  /** Resolving the same mention again, once the fresh entity made for it is recorded, links to
      that entity if and only if the mention's normalised text is among the entity's labels, or
      its email identifies it under a positive threshold.  Else a duplicate is made. */
  lemma ResolvedAgainIff(ops: TextOps, threshold: real, s: Index, m: Mention, id: Id)
    requires WellFormed(s) && Exact(ops, s) && 0.0 <= threshold <= 1.0 && m.text != ""
    requires Resolution(ops, threshold, s, m).Fresh? && id != "" && id !in s.entries
    ensures var text := ops.Normalize(m.text);
            var t := Recorded(ops, s, id, NewEntity(m));
            var again := Resolution(ops, threshold, t, m);
            (again == Link(id) <==>
               (text != "" && text in Labels(ops, NewEntity(m))) || (threshold > 0.0 && m.email.Some?)) &&
            (again != Link(id) ==> again == Fresh(NewEntity(m)))
  {
    var text, e := ops.Normalize(m.text), NewEntity(m);
    var t := Recorded(ops, s, id, e);
    WellFormedKept(ops, s, id, e);
    assert LosesNoLabel(ops, s, id, e);
    ExactKeptIff(ops, s, id, e);
    ResolutionClosedForm(ops, threshold, s, m);
    ResolutionClosedForm(ops, threshold, t, m);
    LookupAfter(s.aliases, id, Labels(ops, e), text);
    FirstMatchRecorded(ops, s, m, id, s.order);
    FirstMatchIsFirst(ops, s, m, s.order);
    assert t.order[..|t.order| - 1] == s.order;
    SelfMatch(ops, t, m, id);
  }

  lemma SelfMatch(ops: TextOps, t: Index, m: Mention, id: Id)
    requires id in t.entries && t.entries[id] == NewEntity(m)
    ensures Matches(ops, t, m, id) <==> m.email.Some?
  {
    if m.email.Some? {
      assert "email" in MentionIds(m) && EntryOf(t, id).identifiers == MentionIds(m);
    }
  }

  lemma {:induction false} FirstMatchRecorded(ops: TextOps, s: Index, m: Mention, id: Id, ids: seq<Id>)
    requires id !in ids
    ensures FirstMatch(ops, Recorded(ops, s, id, NewEntity(m)), m, ids) == FirstMatch(ops, s, m, ids)
  {
    if ids == [] {
    } else {
      FirstMatchRecorded(ops, s, m, id, ids[..|ids| - 1]);
      assert ids[|ids| - 1] in ids;
    }
  }

  /** An entity created since the last restart carries the mention's text as a label. */
  ghost predicate LabelledSince(ops: TextOps, run: seq<Event>, m: Mention) {
    exists k :: 0 <= k < |Since(run)| && CarriesText(ops, m, Since(run)[k].entry)
  }

  predicate CarriesText(ops: TextOps, m: Mention, e: Entry) {
    ops.Normalize(m.text) != "" && ops.Normalize(m.text) in Labels(ops, e)
  }

  ghost predicate IdentifiedSince(ops: TextOps, run: seq<Event>, m: Mention) {
    exists k :: 0 <= k < |Since(run)| && m.email.Some? && Overlap(ops, MentionIds(m), Since(run)[k].entry.identifiers)
  }

  /** After every run a mention is given a fresh entity if and only if no entity created since the last
      restart carries its text, and the threshold is 0 or none of those shares its identifier. */
  lemma FreshAfterRunIff(ops: TextOps, threshold: real, run: seq<Event>, m: Mention)
    requires FreshIds(run) && 0.0 <= threshold <= 1.0 && m.text != ""
    ensures Resolution(ops, threshold, IndexAfter(ops, run), m).Fresh? <==>
            !LabelledSince(ops, run, m) && (threshold == 0.0 || !IdentifiedSince(ops, run, m))
  {
    var s := IndexAfter(ops, run);
    IndexHoldsRun(ops, run);
    IndexWellFormed(ops, run);
    ResolutionClosedForm(ops, threshold, s, m);
    HitsAreLabelled(ops, run, m);
    MatchIsIdentified(ops, run, m);
  }

  lemma MatchIsIdentified(ops: TextOps, run: seq<Event>, m: Mention)
    requires FreshIds(run)
    ensures var s := IndexAfter(ops, run); FirstMatch(ops, s, m, s.order).Some? <==> IdentifiedSince(ops, run, m)
  {
    var s := IndexAfter(ops, run);
    HeldAt(ops, run, s, 0);
    FirstMatchIsFirst(ops, s, m, s.order);
    forall k | 0 <= k < |s.order| ensures EntryOf(s, s.order[k]) == Since(run)[k].entry { HeldAt(ops, run, s, k); }
  }

  lemma HitsAreLabelled(ops: TextOps, run: seq<Event>, m: Mention)
    requires FreshIds(run)
    ensures AliasHits(ops, IndexAfter(ops, run), m) != [] <==> LabelledSince(ops, run, m)
  {
    var s, text := IndexAfter(ops, run), ops.Normalize(m.text);
    IndexHoldsRun(ops, run);
    IndexWellFormed(ops, run);
    if AliasHits(ops, s, m) != [] {
      assert Indexed(s, text, AliasHits(ops, s, m)[0]) && AliasHits(ops, s, m)[0] in s.order;
    }
    if k :| 0 <= k < |Since(run)| && CarriesText(ops, m, Since(run)[k].entry) {
      assert Carries(ops, s, text, s.order[k]);
      assert Indexed(s, text, s.order[k]);
    }
  }

  /** The fresh entity has the normalised name if the mention brings one, else the text, as its name;
      the normalised name once more as an alias when it differs from the text; and the email. */
  lemma FreshEntityMeans(m: Mention)
    ensures var e := NewEntity(m);
            var brought := m.normalizedName != None && m.normalizedName != Some("");
            && e.name == (if brought then m.normalizedName.value else m.text)
            && e.aliases == (if brought && m.normalizedName.value != m.text then [m.normalizedName.value] else [])
            && (forall key :: key in e.identifiers <==> key == "email" && m.email != None)
            && ("email" in e.identifiers ==> Some(e.identifiers["email"]) == m.email)
  {
  }

  // ----- concrete inputs on which the expectations fail

  const PLAIN := TextOps(s => s, s => s)
  const ANN := Entry("Ann", [], map["email" := "ann@x.org"])

  lemma PlainEmptyExact()
    ensures WellFormed(EMPTY) && Exact(PLAIN, EMPTY)
  {
  }

  /** With threshold 0 a mention carrying a recorded email is given a fresh entity. */
  lemma ThresholdZeroExample()
    ensures var s := Recorded(PLAIN, EMPTY, "e1", ANN);
            var m := Mention("Annie", None, Some("ann@x.org"));
            Matches(PLAIN, s, m, "e1") && Resolution(PLAIN, 0.0, s, m) == Fresh(NewEntity(m))
  {
    var s := Recorded(PLAIN, EMPTY, "e1", ANN);
    var m := Mention("Annie", None, Some("ann@x.org"));
    assert "email" in MentionIds(m) && "email" in EntryOf(s, "e1").identifiers;
    assert AliasHits(PLAIN, s, m) == [] by { LookupAfter(map[], "e1", Labels(PLAIN, ANN), "Annie"); }
  }

  lemma PlainFresh(threshold: real, m: Mention)
    requires m.text != ""
    ensures Resolution(PLAIN, threshold, EMPTY, m) == Fresh(NewEntity(m))
  {
    assert AliasHits(PLAIN, EMPTY, m) == [] && EMPTY.order == [];
  }

  /** Any mention without an email whose text is not among the new entity's labels is given a
      second entity when seen again. */
  lemma SeenAgain(threshold: real, m: Mention, id: Id)
    requires 0.0 <= threshold <= 1.0 && m.text != "" && id != ""
    requires m.email.None? && m.text !in Labels(PLAIN, NewEntity(m))
    ensures Resolution(PLAIN, threshold, Recorded(PLAIN, EMPTY, id, NewEntity(m)), m) == Fresh(NewEntity(m))
  {
    PlainEmptyExact();
    PlainFresh(threshold, m);
    ResolvedAgainIff(PLAIN, threshold, EMPTY, m, id);
  }

  /** A mention with a normalised name and no email is given a second entity when seen again. */
  lemma DuplicateExample(threshold: real)
    requires 0.0 <= threshold <= 1.0
    ensures var m := Mention("Dr Ann", Some("Ann"), None);
            Resolution(PLAIN, threshold, Recorded(PLAIN, EMPTY, "e1", NewEntity(m)), m) == Fresh(NewEntity(m))
  {
    var m := Mention("Dr Ann", Some("Ann"), None);
    assert "Dr Ann" != "Ann" by { assert |"Dr Ann"| != |"Ann"|; }
    assert Labels(PLAIN, NewEntity(m)) == ["Ann", "Ann"];
    SeenAgain(threshold, m, "e1");
  }

  /** A run that a second process takes over. */
  const RESUMED: seq<Event> := [Arrived(Arrival("e1", ANN)), Restart]

  lemma ResumedEmpty()
    ensures FreshIds(RESUMED) && Since(RESUMED) == [] && IndexAfter(PLAIN, RESUMED) == EMPTY
  {
  }

  /** After a restart a mention with a recorded text and email is given a fresh entity at every
      threshold. */
  lemma RestartFreshExample(threshold: real)
    requires 0.0 <= threshold <= 1.0
    ensures Resolution(PLAIN, threshold, IndexAfter(PLAIN, RESUMED), Mention("Ann", None, Some("ann@x.org"))).Fresh?
  {
    ResumedEmpty();
    FreshAfterRunIff(PLAIN, threshold, RESUMED, Mention("Ann", None, Some("ann@x.org")));
  }

  /** Two equal entities on the two sides of a restart are never flagged. */
  lemma RestartSplitsPairExample(threshold: real)
    requires 0.0 <= threshold <= 1.0
    ensures Score(PLAIN, ANN, ANN) >= threshold &&
            JoinCount(CandidatesAfter(PLAIN, threshold, RESUMED + [Arrived(Arrival("e2", ANN))]), "e1", "e2") == 0
  {
    var run := RESUMED + [Arrived(Arrival("e2", ANN))];
    assert "e1"[1] != "e2"[1];
    assert FreshIds(run) && run[1].Restart? && Fenced(run, 0, 2);
    EachSimilarPairOnce(PLAIN, threshold, run, 0, 2);
    assert Labels(PLAIN, ANN)[0] == "Ann";
    ScoreBounds(PLAIN, ANN, ANN);
  }

  // ----- the pack's module state and its behaviors

  class EntityPack {
    const ops: TextOps
    const mergeThreshold: real
    const resolutionThreshold: real
    const autoAccept: bool
    var order: seq<Id>
    var entries: map<Id, Entry>
    var aliasIndex: AliasMap
    var candidates: seq<Candidate>

    function State(): Index
      reads this
    {
      Index(order, entries, aliasIndex)
    }

    constructor (ops: TextOps, merge: real, resolution: real, auto: bool)
      ensures State() == EMPTY && candidates == []
      ensures this.ops == ops && mergeThreshold == merge && resolutionThreshold == resolution && autoAccept == auto
    {
      this.ops, mergeThreshold, resolutionThreshold, autoAccept := ops, merge, resolution, auto;
      order, entries, aliasIndex, candidates := [], map[], map[], [];
    }

    method AddToAliasIndex(id: Id, e: Entry)
      modifies this`aliasIndex
      ensures aliasIndex == AddLabels(old(aliasIndex), id, Labels(ops, e))
    {
      var keys := Labels(ops, e);
      for k := 0 to |keys|
        invariant aliasIndex == AddLabels(old(aliasIndex), id, keys[..k])
      {
        AddLabel(id, keys[k]);
        AddLabelsStep(old(aliasIndex), id, keys, k);
      }
      assert keys[..|keys|] == keys;
    }

    method AddLabel(id: Id, key: string)
      modifies this`aliasIndex
      ensures aliasIndex == AddOne(old(aliasIndex), id, key)
    {
      if key != "" {
        if key !in aliasIndex { aliasIndex := aliasIndex[key := []]; }
        if id !in aliasIndex[key] { aliasIndex := aliasIndex[key := aliasIndex[key] + [id]]; }
      }
    }

    method EntityRegistryRecorder(id: Id, e: Entry)
      modifies this
      ensures State() == Recorded(ops, old(State()), id, e)
      ensures candidates == old(candidates)
    {
      if id == "" { return; }
      if id !in entries { order := order + [id]; }
      entries := entries[id := e];
      AddToAliasIndex(id, e);
    }

    method MergeCandidateDetector(id: Id, e: Entry)
      requires WellFormed(State())
      modifies this`candidates
      ensures candidates == old(candidates) +
              if id == "" then [] else Detected(ops, mergeThreshold, State(), id, e, order)
    {
      if id == "" { return; }
      ghost var s, before := State(), candidates;
      ghost var found: seq<Candidate> := [];
      for k := 0 to |order|
        invariant State() == s && candidates == before + found
        invariant found == Detected(ops, mergeThreshold, s, id, e, order[..k])
      {
        Compare(id, e, order[k]);
        DetectedStep(ops, mergeThreshold, s, id, e, order, k);
        found := found + Flag(ops, mergeThreshold, id, e, order[k], s.entries[order[k]]);
      }
      assert order[..|order|] == order;
    }

    method Compare(id: Id, e: Entry, x: Id)
      requires x in entries
      modifies this`candidates
      ensures candidates == old(candidates) + Flag(ops, mergeThreshold, id, e, x, entries[x])
    {
      if x == id { return; }
      var score, reasons := ComputeSimilarity(ops, e, entries[x]);
      if score >= mergeThreshold {
        candidates := candidates + [Candidate(id, x, score, reasons)];
      }
    }

    /** One object.created event for an entity: both behaviors, in registration order. */
    method OnEntityCreated(ghost run: seq<Event>, id: Id, e: Entry)
      requires State() == IndexAfter(ops, run) && candidates == CandidatesAfter(ops, mergeThreshold, run)
      modifies this
      ensures State() == IndexAfter(ops, run + [Arrived(Arrival(id, e))])
      ensures candidates == CandidatesAfter(ops, mergeThreshold, run + [Arrived(Arrival(id, e))])
    {
      ghost var next := run + [Arrived(Arrival(id, e))];
      assert next[..|next| - 1] == run;
      IndexWellFormed(ops, next);
      EntityRegistryRecorder(id, e);
      MergeCandidateDetector(id, e);
    }

    /** A new process starts with an empty registry and index over the same graph. */
    method StartProcess(ghost run: seq<Event>)
      requires candidates == CandidatesAfter(ops, mergeThreshold, run)
      modifies this`order, this`entries, this`aliasIndex
      ensures State() == IndexAfter(ops, run + [Restart])
      ensures candidates == CandidatesAfter(ops, mergeThreshold, run + [Restart])
    {
      order, entries, aliasIndex := [], map[], map[];
      assert (run + [Restart])[..|run|] == run;
    }

    /** The resolver with its early exits and its auto-accept flag. */
    method EntityResolver(m: Mention) returns (decision: Decision)
      requires WellFormed(State()) && 0.0 <= resolutionThreshold <= 1.0
      ensures decision == Resolution(ops, resolutionThreshold, State(), m)
    {
      if m.text == "" { return Ignored; }
      var hits := Lookup(aliasIndex, ops.Normalize(m.text));
      var best := ScanAliases(m, hits);
      AliasBestBounds(ops, State(), m, hits);
      assert MentionIds(m) != map[] <==> m.email.Some? by { assert m.email.Some? ==> "email" in MentionIds(m); }
      if best.score < resolutionThreshold && MentionIds(m) != map[] {
        best := ScanIdentifiers(m, hits, best);
      }
      if best.id.Some? && best.id.value != "" &&
         (best.score >= resolutionThreshold || (autoAccept && best.score >= 1.0)) {
        decision := Link(best.id.value);
      } else {
        decision := Fresh(NewEntity(m));
      }
    }

    method ScanAliases(m: Mention, hits: seq<Id>) returns (best: Choice)
      ensures best == AliasBest(ops, State(), m, hits)
    {
      best := Choice(None, 0.0);
      var k := 0;
      while k < |hits|
        invariant 0 <= k <= |hits|
        invariant best == AliasBest(ops, State(), m, hits[..k])
      {
        var score, _ := ComputeSimilarity(ops, AsEntry(m), EntryOf(State(), hits[k]));
        assert hits[..k + 1][..k] == hits[..k];
        AliasBestBounds(ops, State(), m, hits[..k]);
        if score > best.score { best := Choice(Some(hits[k]), score); }
        k := k + 1;
        if autoAccept && score >= 1.0 {
          AliasBestStable(ops, State(), m, hits, k);
          return;
        }
      }
      assert hits[..|hits|] == hits;
    }

    method ScanIdentifiers(m: Mention, hits: seq<Id>, start: Choice) returns (best: Choice)
      requires 0.0 <= start.score <= 1.0
      ensures best == IdBest(ops, State(), m, order, hits, start)
    {
      best := start;
      var k := 0;
      while k < |order|
        invariant 0 <= k <= |order|
        invariant best == IdBest(ops, State(), m, order[..k], hits, start) && 0.0 <= best.score <= 1.0
      {
        var id := order[k];
        assert order[..k + 1][..k] == order[..k];
        k := k + 1;
        if id !in hits {
          var score := IdentifierOverlapScore(ops, MentionIds(m), EntryOf(State(), id).identifiers);
          if score > best.score { best := Choice(Some(id), score); }
          if autoAccept && score >= 1.0 {
            IdBestStable(ops, State(), m, order, hits, start, k);
            return;
          }
        }
      }
      assert order[..|order|] == order;
    }
  }

  function AddOne(aliases: AliasMap, id: Id, key: string): AliasMap {
    if key == "" || id in Lookup(aliases, key) then aliases
    else aliases[key := Lookup(aliases, key) + [id]]
  }

  lemma AddLabelsStepAt(aliases: AliasMap, id: Id, keys: seq<string>, key: string, x: string)
    ensures Lookup(AddLabels(aliases, id, keys + [key]), x) == Lookup(AddOne(AddLabels(aliases, id, keys), id, key), x)
  {
    LookupAfter(aliases, id, keys, x);
    LookupAfter(aliases, id, keys + [key], x);
    LookupAfter(aliases, id, keys, key);
  }

  lemma AddLabelsKeys(aliases: AliasMap, id: Id, keys: seq<string>, x: string)
    ensures x in AddLabels(aliases, id, keys) <==> x in aliases || (x in keys && x != "")
  {
    LookupAfter(aliases, id, keys, x);
  }

  lemma AddLabelsStepKeys(aliases: AliasMap, id: Id, keys: seq<string>, key: string)
    ensures AddLabels(aliases, id, keys + [key]).Keys == AddOne(AddLabels(aliases, id, keys), id, key).Keys
  {
    LookupAfter(aliases, id, keys, key);
    forall x ensures x in AddLabels(aliases, id, keys + [key]) <==> x in AddOne(AddLabels(aliases, id, keys), id, key) {
      AddLabelsKeys(aliases, id, keys, x);
      AddLabelsKeys(aliases, id, keys + [key], x);
    }
  }

  lemma AddLabelsStep(aliases: AliasMap, id: Id, keys: seq<string>, k: nat)
    requires k < |keys|
    ensures AddLabels(aliases, id, keys[..k + 1]) == AddOne(AddLabels(aliases, id, keys[..k]), id, keys[k])
  {
    assert keys[..k + 1] == keys[..k] + [keys[k]];
    var after, target := AddLabels(aliases, id, keys[..k] + [keys[k]]),
        AddOne(AddLabels(aliases, id, keys[..k]), id, keys[k]);
    AddLabelsStepKeys(aliases, id, keys[..k], keys[k]);
    forall x | x in after ensures after[x] == target[x] {
      AddLabelsStepAt(aliases, id, keys[..k], keys[k], x);
      assert after[x] == Lookup(after, x) && target[x] == Lookup(target, x);
    }
  }
}
