/** Recording attention observations, one by one or in batches that are validated as a whole
    (packs/attention/tools.py). */
module AttentionRecorder {
  import opened Prelude
  import E = EvidenceFold
  import V = ImportanceVectors

  /** What is stored of an observation; `rest` stands for the fields the projector does not read. */
  datatype Entry = Entry(observation: V.Observation, opportunity: Option<string>, rest: string) {
    function Id(): string { observation.id }

    /** Silence counts only where there was an opportunity to respond. */
    predicate Censored() { observation.signal.NonresponseWindow? && (opportunity.None? || opportunity.value == "") }
  }

  datatype Batch = Batch(id: string, session: string, sequence: int, client: string)

  datatype Book = Book(entries: seq<Entry>, batches: seq<Batch>)

  const EMPTY := Book([], [])

  datatype Refusal = NoOpportunity | DifferentData | TooMany | ForeignBatch

  /** First stored entry of an id. */
  function Find(entries: seq<Entry>, id: string): Option<Entry> {
    if entries == [] then None
    else
      var before := Find(entries[..|entries| - 1], id);
      if before.Some? then before
      else if entries[|entries| - 1].Id() == id then Some(entries[|entries| - 1])
      else None
  }

  lemma {:induction false} FindIs(entries: seq<Entry>, id: string)
    ensures Find(entries, id).Some? ==> Find(entries, id).value in entries && Find(entries, id).value.Id() == id
    ensures Find(entries, id).None? ==> forall i :: 0 <= i < |entries| ==> entries[i].Id() != id
  {
    if entries == [] {
    } else {
      FindIs(entries[..|entries| - 1], id);
    }
  }

  function FindBatch(batches: seq<Batch>, id: string): Option<Batch>
    ensures FindBatch(batches, id).Some? ==>
              FindBatch(batches, id).value in batches && FindBatch(batches, id).value.id == id
    ensures FindBatch(batches, id).None? ==> forall b :: b in batches ==> b.id != id
  {
    if batches == [] then None
    else
      var before := FindBatch(batches[..|batches| - 1], id);
      if before.Some? then before
      else if batches[|batches| - 1].id == id then Some(batches[|batches| - 1])
      else None
  }

  function Fault(entries: seq<Entry>, e: Entry): Option<Refusal> {
    if e.Censored() then Some(NoOpportunity)
    else if Find(entries, e.Id()).Some? && Find(entries, e.Id()).value != e then Some(DifferentData)
    else None
  }

  function Added(entries: seq<Entry>, e: Entry): seq<Entry> {
    if Find(entries, e.Id()).Some? then entries else entries + [e]
  }

  function AddedAll(entries: seq<Entry>, rows: seq<Entry>, n: nat): seq<Entry>
    requires n <= |rows|
  {
    if n == 0 then entries else Added(AddedAll(entries, rows, n - 1), rows[n - 1])
  }

  /** The first fault among the rows, each checked against what is stored. */
  function FirstFault(entries: seq<Entry>, rows: seq<Entry>, n: nat): Option<Refusal>
    requires n <= |rows|
  {
    if n == 0 then None
    else if FirstFault(entries, rows, n - 1).Some? then FirstFault(entries, rows, n - 1)
    else Fault(entries, rows[n - 1])
  }

  datatype Answer = Refused(why: Refusal) | Known | New

  function RecordOne(g: Book, e: Entry): (Book, Answer) {
    var fault := Fault(g.entries, e);
    if fault.Some? then (g, Refused(fault.value))
    else if Find(g.entries, e.Id()).Some? then (g, Known)
    else (g.(entries := g.entries + [e]), New)
  }

  function RecordBatch(g: Book, b: Batch, rows: seq<Entry>, max: int): (Book, Answer) {
    var known := FindBatch(g.batches, b.id);
    var fault := FirstFault(g.entries, rows, |rows|);
    if |rows| > max then (g, Refused(TooMany))
    else if known.Some? then (g, if known.value == b then Known else Refused(ForeignBatch))
    else if fault.Some? then (g, Refused(fault.value))
    else (Book(AddedAll(g.entries, rows, |rows|), g.batches + [b]), New)
  }

  datatype Op = One(entry: Entry) | Many(batch: Batch, rows: seq<Entry>, max: int)

  function Step(g: Book, op: Op): (Book, Answer) {
    match op case One(e) => RecordOne(g, e) case Many(b, rows, max) => RecordBatch(g, b, rows, max)
  }

  function After(run: seq<Op>): Book {
    if run == [] then EMPTY else Step(After(run[..|run| - 1]), run[|run| - 1]).0
  }

  // ----- one observation an id, which is what the projector's fold relies on

  ghost predicate OnePerId(entries: seq<Entry>) {
    forall i, j :: 0 <= i < j < |entries| ==> entries[i].Id() != entries[j].Id()
  }

  lemma AddedUnique(entries: seq<Entry>, e: Entry)
    requires OnePerId(entries)
    ensures OnePerId(Added(entries, e)) && entries <= Added(entries, e)
  {
    FindIs(entries, e.Id());
  }

  lemma {:induction false} AddedAllUnique(entries: seq<Entry>, rows: seq<Entry>, n: nat)
    requires n <= |rows| && OnePerId(entries)
    ensures OnePerId(AddedAll(entries, rows, n)) && entries <= AddedAll(entries, rows, n)
  {
    if n == 0 {
    } else {
      AddedAllUnique(entries, rows, n - 1);
      AddedUnique(AddedAll(entries, rows, n - 1), rows[n - 1]);
    }
  }

  /** Over every run of recordings each observation id is stored once. */
  lemma {:induction false} RunUnique(run: seq<Op>)
    ensures OnePerId(After(run).entries)
  {
    if run == [] {
    } else {
      RunUnique(run[..|run| - 1]);
      match run[|run| - 1]
      case One(e) => AddedUnique(After(run[..|run| - 1]).entries, e);
      case Many(b, rows, max) => AddedAllUnique(After(run[..|run| - 1]).entries, rows, |rows|);
    }
  }

  /** Nothing stored is ever changed or dropped. */
  lemma StepKeeps(g: Book, op: Op)
    requires OnePerId(g.entries)
    ensures g.entries <= Step(g, op).0.entries && g.batches <= Step(g, op).0.batches
  {
    if op.Many? { AddedAllUnique(g.entries, op.rows, |op.rows|); }
  }

  function Observations(entries: seq<Entry>): seq<V.Observation> {
    seq(|entries|, i requires 0 <= i < |entries| => entries[i].observation)
  }

  /** Whatever is recorded, in whatever order its events reach the projector and however often:
      every vector is the scored fold of the recorded observations of its key. */
  lemma RecordedVectors(run: seq<Op>, events: seq<V.Observation>, key: E.Key)
    requires forall o :: o in events <==> o in Observations(After(run).entries)
    ensures V.OneObservationPerId(events)
    ensures key in V.VectorsAfter(events) <==> E.Observed(V.Pieces(events), key) != {}
    ensures key in V.VectorsAfter(events) ==>
              E.IsFoldOf(V.VectorsAfter(events)[key].evidence, E.Observed(V.Pieces(events), key))
  {
    RunUnique(run);
    var entries := After(run).entries;
    forall o, p | o in events && p in events && o.id == p.id ensures o == p {
      var i :| 0 <= i < |entries| && Observations(entries)[i] == o;
      var j :| 0 <= j < |entries| && Observations(entries)[j] == p;
      assert entries[i].Id() == entries[j].Id();
    }
    V.VectorIsFold(events, key);
  }

  // ----- which recordings are refused, known or new

  /** A missing response needs the opportunity it missed; an id stands for the data first recorded
      under it, and recording that data again is no fault. */
  lemma AnswerIff(run: seq<Op>, e: Entry)
    ensures var g := After(run);
            var r := RecordOne(g, e);
            var asked := e.opportunity != None && e.opportunity != Some("");
            var silent := e.observation.signal.NonresponseWindow? && !asked;
            && (r.1 == Refused(NoOpportunity) <==> silent)
            && (r.1 == Refused(DifferentData) <==>
                  !silent && exists s :: s in g.entries && s.observation.id == e.observation.id && s != e)
            && (r.1 == Known <==> !silent && e in g.entries)
            && (r.1 == New <==> !silent && forall s :: s in g.entries ==> s.observation.id != e.observation.id)
            && (r.1 == New ==> r.0.entries == g.entries + [e]) && (r.1 != New ==> r.0 == g)
  {
    var g := After(run);
    RunUnique(run);
    FindIs(g.entries, e.Id());
    var found := Find(g.entries, e.Id());
    forall s | s in g.entries && s.Id() == e.Id() ensures found == Some(s) {
      var i :| 0 <= i < |g.entries| && g.entries[i] == s;
      var j :| 0 <= j < |g.entries| && g.entries[j] == found.value;
      assert i == j;
    }
  }

  /** A batch is new if and only if it is within the size limit, its id is not taken and no row is at
      fault; a known batch or a refused one writes nothing. */
  lemma BatchAnswerIff(g: Book, b: Batch, rows: seq<Entry>, max: int)
    ensures var r := RecordBatch(g, b, rows, max);
            && (r.1 == Refused(TooMany) <==> |rows| > max)
            && (r.1 == Known ==> b in g.batches)
            && (r.1 == Refused(ForeignBatch) ==> exists c :: c in g.batches && c.id == b.id && c != b)
            && (r.1 == New <==>
                  && |rows| <= max && (forall c :: c in g.batches ==> c.id != b.id)
                  && forall k :: 0 <= k < |rows| ==> Fault(g.entries, rows[k]).None?)
            && (r.1 == New ==> r.0.batches == g.batches + [b] && g.entries <= r.0.entries)
            && (r.1 != New ==> r.0 == g)
  {
    FirstFaultIs(g.entries, rows, |rows|);
    AddedAllExtends(g.entries, rows, |rows|);
  }

  lemma {:induction false} AddedAllExtends(entries: seq<Entry>, rows: seq<Entry>, n: nat)
    requires n <= |rows|
    ensures entries <= AddedAll(entries, rows, n)
    decreases n
  {
    if n == 0 {
    } else {
      AddedAllExtends(entries, rows, n - 1);
    }
  }

  lemma {:induction false} FirstFaultIs(entries: seq<Entry>, rows: seq<Entry>, n: nat)
    requires n <= |rows|
    ensures FirstFault(entries, rows, n) in {None, Some(NoOpportunity), Some(DifferentData)}
    ensures FirstFault(entries, rows, n).None? <==> forall k :: 0 <= k < n ==> Fault(entries, rows[k]).None?
    decreases n
  {
    if n == 0 {
    } else {
      FirstFaultIs(entries, rows, n - 1);
    }
  }

  // ----- what a batch keeps of its rows

  /** Rows of one batch that share an id are equal. */
  ghost predicate ConsistentRows(rows: seq<Entry>) {
    forall i, j :: 0 <= i < j < |rows| && rows[i].Id() == rows[j].Id() ==> rows[i] == rows[j]
  }

  /** `e` is the first of the first `n` rows with its id. */
  ghost predicate FirstRow(rows: seq<Entry>, n: nat, e: Entry)
    requires n <= |rows|
  {
    exists k :: 0 <= k < n && rows[k] == e && forall j :: 0 <= j < k ==> rows[j].Id() != e.Id()
  }

  ghost predicate NoRow(rows: seq<Entry>, n: nat, id: string)
    requires n <= |rows|
  {
    forall k :: 0 <= k < n ==> rows[k].Id() != id
  }

  /** What the first `n` rows put under an id nothing is stored under. */
  ghost predicate FoundAs(rows: seq<Entry>, n: nat, id: string, found: Option<Entry>)
    requires n <= |rows|
  {
    if found.Some? then found.value.Id() == id && FirstRow(rows, n, found.value) else NoRow(rows, n, id)
  }

  lemma FoundStep(rows: seq<Entry>, n: nat, next: nat, id: string, before: Option<Entry>, found: Option<Entry>)
    requires n + 1 == next <= |rows| && FoundAs(rows, n, id, before)
    requires found == if before.None? && rows[n].Id() == id then Some(rows[n]) else before
    ensures FoundAs(rows, next, id, found)
  {
    if before.None? && rows[n].Id() == id {
      assert rows[n] == found.value && forall j :: 0 <= j < n ==> rows[j].Id() != id;
    }
  }

  lemma FindAdded(entries: seq<Entry>, e: Entry, id: string, before: Option<Entry>, after: Option<Entry>)
    requires Find(entries, id) == before && after == if before.None? && e.Id() == id then Some(e) else before
    ensures Find(Added(entries, e), id) == after
  {
    assert (entries + [e])[..|entries|] == entries;
  }

  /** What is found under an id after the first `n` rows, from what was found before them. */
  function FoundAfter(stored: Option<Entry>, rows: seq<Entry>, n: nat, id: string): Option<Entry>
    requires n <= |rows|
  {
    if n == 0 then stored
    else
      var before := FoundAfter(stored, rows, n - 1, id);
      if before.None? && rows[n - 1].Id() == id then Some(rows[n - 1]) else before
  }

  lemma {:induction false} AddedAllFinds(entries: seq<Entry>, stored: Option<Entry>, rows: seq<Entry>, n: nat,
                                         id: string)
    requires n <= |rows| && Find(entries, id) == stored
    ensures Find(AddedAll(entries, rows, n), id) == FoundAfter(stored, rows, n, id)
    decreases n
  {
    if n == 0 {
    } else {
      AddedAllFinds(entries, stored, rows, n - 1, id);
      FindAdded(AddedAll(entries, rows, n - 1), rows[n - 1], id, FoundAfter(stored, rows, n - 1, id),
                FoundAfter(stored, rows, n, id));
    }
  }

  /** A batch never replaces what is stored. */
  lemma {:induction false} StoredStays(stored: Option<Entry>, rows: seq<Entry>, n: nat, id: string)
    requires n <= |rows| && stored.Some?
    ensures FoundAfter(stored, rows, n, id) == stored
    decreases n
  {
    if n == 0 {
    } else {
      StoredStays(stored, rows, n - 1, id);
    }
  }

  /** Under an id nothing is stored under, a batch stores its first row with it. */
  lemma {:induction false} FirstRowStored(rows: seq<Entry>, n: nat, id: string)
    requires n <= |rows|
    ensures FoundAs(rows, n, id, FoundAfter(None, rows, n, id))
    decreases n
  {
    if n == 0 {
    } else {
      FirstRowStored(rows, n - 1, id);
      FoundStep(rows, n - 1, n, id, FoundAfter(None, rows, n - 1, id), FoundAfter(None, rows, n, id));
    }
  }

  lemma {:induction false} NoFault(entries: seq<Entry>, rows: seq<Entry>, n: nat, k: nat)
    requires k < n <= |rows| && FirstFault(entries, rows, n).None?
    ensures Fault(entries, rows[k]).None?
    decreases n
  {
    if k == n - 1 {
    } else {
      NoFault(entries, rows, n - 1, k);
    }
  }

  lemma RowKept(entries: seq<Entry>, rows: seq<Entry>, k: nat)
    requires k < |rows| && FirstFault(entries, rows, |rows|).None? && ConsistentRows(rows)
    ensures Find(AddedAll(entries, rows, |rows|), rows[k].Id()) == Some(rows[k])
  {
    var id := rows[k].Id();
    var stored := Find(entries, id);
    NoFault(entries, rows, |rows|, k);
    AddedAllFinds(entries, stored, rows, |rows|, id);
    if stored.Some? { StoredStays(stored, rows, |rows|, id); } else { FirstRowStored(rows, |rows|, id); }
  }

  /** An accepted batch keeps every one of its rows if and only if rows that share an id are
      equal: rows are checked against what is stored, not against each other. */
  lemma BatchKeptIff(g: Book, b: Batch, rows: seq<Entry>, max: int)
    requires RecordBatch(g, b, rows, max).1 == New
    ensures (forall k :: 0 <= k < |rows| ==>
              Find(RecordBatch(g, b, rows, max).0.entries, rows[k].Id()) == Some(rows[k])) <==>
            ConsistentRows(rows)
  {
    if ConsistentRows(rows) {
      forall k | 0 <= k < |rows| ensures Find(AddedAll(g.entries, rows, |rows|), rows[k].Id()) == Some(rows[k]) {
        RowKept(g.entries, rows, k);
      }
    }
  }

  /** Two different rows with one id in one batch: it is accepted and the second row is lost. */
  lemma LostRowExample(b: Batch, r: Entry, s: Entry)
    requires r.Id() == s.Id() && r != s && !r.Censored() && !s.Censored()
    ensures RecordBatch(EMPTY, b, [r, s], 2) == (Book([r], [b]), New)
  {
    var rows := [r, s];
    assert AddedAll([], rows, 1) == Added(AddedAll([], rows, 0), r) == [r];
    assert [r][..0] == [];
    assert AddedAll([], rows, 2) == Added([r], s) == [r];
    assert Fault([], r).None? && Fault([], s).None?;
    assert FirstFault([], rows, 0).None? && FirstFault([], rows, 1).None?;
    assert FirstFault([], rows, 2) == Fault([], rows[1]);
    assert |rows| == 2 && EMPTY.batches + [b] == [b];
  }

  /** Sending a batch again, whatever happened in between, changes nothing. */
  lemma BatchAgain(g: Book, b: Batch, rows: seq<Entry>, max: int, since: seq<Op>)
    requires RecordBatch(g, b, rows, max).1 != Refused(TooMany) && b in RecordBatch(g, b, rows, max).0.batches
    requires OneBatchPerId(RecordBatch(g, b, rows, max).0.batches)
    ensures var h := AfterFrom(RecordBatch(g, b, rows, max).0, since);
            RecordBatch(h, b, rows, max) == (h, Known)
  {
    FromKeeps(RecordBatch(g, b, rows, max).0, since);
    var h := AfterFrom(RecordBatch(g, b, rows, max).0, since);
    assert b in h.batches;
  }

  ghost predicate OneBatchPerId(batches: seq<Batch>) {
    forall i, j :: 0 <= i < j < |batches| ==> batches[i].id != batches[j].id
  }

  function AfterFrom(g: Book, since: seq<Op>): Book {
    if since == [] then g else Step(AfterFrom(g, since[..|since| - 1]), since[|since| - 1]).0
  }

  lemma {:induction false} FromKeeps(g: Book, since: seq<Op>)
    requires OneBatchPerId(g.batches)
    ensures g.batches <= AfterFrom(g, since).batches && OneBatchPerId(AfterFrom(g, since).batches)
  {
    if since == [] {
    } else {
      FromKeeps(g, since[..|since| - 1]);
    }
  }

  // ----- the capabilities

  class Recorder {
    var entries: seq<Entry>
    var batches: seq<Batch>

    function Value(): Book
      reads this
    {
      Book(entries, batches)
    }

    constructor ()
      ensures Value() == After([])
    {
      entries, batches := [], [];
    }

    method RecordAttentionObservation(e: Entry) returns (answer: Answer)
      modifies this`entries
      ensures (Value(), answer) == RecordOne(old(Value()), e)
    {
      if e.Censored() { return Refused(NoOpportunity); }
      var existing := Find(entries, e.Id());
      if existing.Some? {
        return if existing.value != e then Refused(DifferentData) else Known;
      }
      entries := entries + [e];
      return New;
    }

    /** All rows are checked before the first is written. */
    method RecordInteractionBatch(b: Batch, rows: seq<Entry>, max: int) returns (answer: Answer)
      modifies this
      ensures (Value(), answer) == RecordBatch(old(Value()), b, rows, max)
    {
      if |rows| > max { return Refused(TooMany); }
      var existing := FindBatch(batches, b.id);
      if existing.Some? {
        return if existing.value != b then Refused(ForeignBatch) else Known;
      }
      var fault := CheckRows(rows);
      if fault.Some? { return Refused(fault.value); }
      for i := 0 to |rows|
        invariant entries == AddedAll(old(entries), rows, i)
        invariant batches == old(batches)
      {
        if Find(entries, rows[i].Id()).None? { entries := entries + [rows[i]]; }
      }
      batches := batches + [b];
      return New;
    }

    method CheckRows(rows: seq<Entry>) returns (fault: Option<Refusal>)
      ensures fault == FirstFault(entries, rows, |rows|)
    {
      for i := 0 to |rows|
        invariant FirstFault(entries, rows, i).None?
      {
        fault := Fault(entries, rows[i]);
        if fault.Some? {
          FaultStays(entries, rows, i + 1, |rows|);
          return;
        }
      }
      return None;
    }
  }

  lemma {:induction false} FaultStays(entries: seq<Entry>, rows: seq<Entry>, i: nat, n: nat)
    requires i <= n <= |rows| && FirstFault(entries, rows, i).Some?
    ensures FirstFault(entries, rows, n) == FirstFault(entries, rows, i)
  {
    if i == n {
    } else {
      FaultStays(entries, rows, i, n - 1);
    }
  }
}
