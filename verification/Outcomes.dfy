/** Terminal and maintenance outcomes, the capture behavior and the reliability tallies
    (packs/eval_outcome/tools.py and behaviors.py).

    Evaluations are named by their place in the creation-ordered list.  Created objects and
    emitted outcomes queue events; each queue is served in order. */
module Outcomes {
  import opened Prelude

  datatype Kind = Helped | Hurt | Neutral | Contradicted | Stale | Superseded

  predicate Terminal(k: Kind) { k.Helped? || k.Hurt? || k.Neutral? }

  datatype Judgment = Accepted | CompletedSuccessfully | Done | Rejected | Failed | CompletedNeutrally | JudgedNeutral
                    | NotRelevant | FoundContradicted | OtherJudgment

  function TerminalOf(j: Judgment): (k: Option<Kind>)
    ensures k.Some? ==> Terminal(k.value)
  {
    match j
    case Accepted => Some(Helped)
    case CompletedSuccessfully => Some(Helped)
    case Done => Some(Helped)
    case Rejected => Some(Hurt)
    case Failed => Some(Hurt)
    case CompletedNeutrally => Some(Neutral)
    case JudgedNeutral => Some(Neutral)
    case NotRelevant => Some(Neutral)
    case _ => None
  }

  datatype Verdict = Accept | Reject | Abstain

  function KindOf(v: Verdict): (k: Kind)
    ensures Terminal(k)
  {
    match v case Accept => Helped case Reject => Hurt case Abstain => Neutral
  }

  function JudgmentOf(v: Verdict): Judgment {
    match v case Accept => Accepted case Reject => Rejected case Abstain => CompletedNeutrally
  }

  datatype SubjectType = TaskSubject | CapabilityResult | SkillUsage | MemoryItem | MemoryClaim | EvaluationSubject
                       | OtherSubject

  /** `subject` names what is judged; `capture` and `revision` come from the metadata. */
  datatype Evaluation = Evaluation(subjectType: SubjectType, subject: string, judgment: Judgment, capture: bool,
                                   revision: Option<string>)

  datatype Artifact = Artifact(id: string, kind: string)

  predicate Named(a: Artifact) { a.id != "" && a.kind != "" }

  datatype ContributionKey = ForTerminal(evaluation: nat) | ForRevision(artifact: string, revision: string, kind: Kind)
                           | ForReplacement(artifact: string, evaluation: nat, kind: Kind)

  datatype Record = Record(kind: Kind, evaluation: Option<nat>, artifact: Artifact, key: ContributionKey)

  /** An emitted outcome event. */
  datatype Emitted = Emitted(kind: Kind, artifact: Artifact)

  datatype Reliability = Reliability(tallies: map<Kind, nat>, latest: Kind)

  datatype Log = Log(evaluations: seq<Evaluation>, records: seq<Record>, captures: seq<nat>, outcomes: seq<Emitted>,
                     reliability: map<string, Reliability>)

  const EMPTY := Log([], [], [], [], map[])

  // ----- lookups

  /** First terminal record of an evaluation. */
  function TerminalRecord(records: seq<Record>, e: nat): Option<nat>
    ensures TerminalRecord(records, e).Some? ==>
              var i := TerminalRecord(records, e).value;
              i < |records| && records[i].evaluation == Some(e) && Terminal(records[i].kind)
    ensures TerminalRecord(records, e).None? ==>
              forall i :: 0 <= i < |records| ==> records[i].evaluation != Some(e) || !Terminal(records[i].kind)
  {
    if records == [] then None
    else
      var before := TerminalRecord(records[..|records| - 1], e);
      var last := records[|records| - 1];
      if before.Some? then before
      else if last.evaluation == Some(e) && Terminal(last.kind) then Some(|records| - 1)
      else None
  }

  predicate HasKey(records: seq<Record>, key: ContributionKey) {
    exists i :: 0 <= i < |records| && records[i].key == key
  }

  // ----- recording

  datatype Outcome = NoEvaluation | AlreadyRecorded | ConflictingTerminal | NoSubject | Recorded

  function Append(g: Log, r: Record): Log {
    g.(records := g.records + [r], outcomes := g.outcomes + [Emitted(r.kind, r.artifact)])
  }

  /** `trace` is the resolved subject of the outcome, if it resolves. */
  function RecordTerminal(g: Log, kind: Kind, e: nat, trace: Option<Artifact>): (Log, Outcome) {
    if e >= |g.evaluations| then (g, NoEvaluation)
    else
      var known := TerminalRecord(g.records, e);
      if known.Some? then (g, if g.records[known.value].kind == kind then AlreadyRecorded else ConflictingTerminal)
      else if trace.None? || !Named(trace.value) then (g, NoSubject)
      else (Append(g, Record(kind, Some(e), trace.value, ForTerminal(e))), Recorded)
  }

  function RecordMaintenance(g: Log, kind: Kind, artifact: Artifact, key: ContributionKey,
                             e: Option<nat>): (Log, Outcome) {
    if !Named(artifact) then (g, NoSubject)
    else if HasKey(g.records, key) then (g, AlreadyRecorded)
    else if e.Some? && e.value >= |g.evaluations| then (g, NoEvaluation)
    else (Append(g, Record(kind, e, artifact, key)), Recorded)
  }

  function WithEvaluation(g: Log, e: Evaluation): Log {
    g.(evaluations := g.evaluations + [e], captures := g.captures + [|g.evaluations|])
  }

  /** An explicit verdict on an existing evaluation, or on a subject that gets a new one. */
  datatype Target = Existing(evaluation: nat) | Fresh(subjectType: SubjectType, subject: string)

  function ExplicitVerdict(g: Log, v: Verdict, t: Target, trace: Option<Artifact>): (Log, Outcome) {
    match t
    case Existing(e) => RecordTerminal(g, KindOf(v), e, trace)
    case Fresh(st, subject) =>
      RecordTerminal(WithEvaluation(g, Evaluation(st, subject, JudgmentOf(v), true, None)), KindOf(v),
                     |g.evaluations|, trace)
  }

  function Supersede(g: Log, prior: nat, v: Verdict): (Log, Outcome) {
    if prior >= |g.evaluations| then (g, NoEvaluation)
    else
      var known := TerminalRecord(g.records, prior);
      if known.None? then (g, NoSubject)
      else
        var a, n := g.records[known.value].artifact, |g.evaluations|;
        var h := WithEvaluation(g, Evaluation(EvaluationSubject, "", JudgmentOf(v), false, None));
        var m := RecordMaintenance(h, Superseded, a, ForReplacement(a.id, n, Superseded), Some(prior)).0;
        RecordTerminal(m, KindOf(v), n, Some(a))
  }

  predicate Captured(e: Evaluation) {
    e.subjectType.TaskSubject? || e.subjectType.CapabilityResult? || (e.subjectType.SkillUsage? && e.capture)
  }

  predicate MemoryContradiction(e: Evaluation) {
    e.judgment.FoundContradicted? && (e.subjectType.MemoryItem? || e.subjectType.MemoryClaim?)
  }

  function MemoryKind(t: SubjectType): string { if t.MemoryItem? then "memory_item" else "memory_claim" }

  /** The capture behavior on the event of evaluation `e`. */
  function Capture(g: Log, e: nat, trace: Option<Artifact>): (Log, Outcome) {
    if e >= |g.evaluations| then (g, NoEvaluation)
    else
      var ev := g.evaluations[e];
      if MemoryContradiction(ev) then
        if ev.revision.Some? && ev.revision.value != "" then
          RecordMaintenance(g, Contradicted, Artifact(ev.subject, MemoryKind(ev.subjectType)),
                            ForRevision(ev.subject, ev.revision.value, Contradicted), Some(e))
        else (g, AlreadyRecorded)
      else if Captured(ev) && TerminalOf(ev.judgment).Some?
        then RecordTerminal(g, TerminalOf(ev.judgment).value, e, trace)
      else (g, AlreadyRecorded)
  }

  // ----- projection

  function Count(tallies: map<Kind, nat>, k: Kind): nat { if k in tallies then tallies[k] else 0 }

  function TallyOf(g: Log, artifact: string, k: Kind): nat {
    if artifact in g.reliability then Count(g.reliability[artifact].tallies, k) else 0
  }

  function Projected(reliability: map<string, Reliability>, o: Emitted): map<string, Reliability> {
    if !Named(o.artifact) then reliability
    else
      var tallies := if o.artifact.id in reliability then reliability[o.artifact.id].tallies else map[];
      reliability[o.artifact.id := Reliability(tallies[o.kind := Count(tallies, o.kind) + 1], o.kind)]
  }

  // ----- runs

  datatype Op =
    | Judge(evaluation: Evaluation)
    | Decide(verdict: Verdict, target: Target, trace: Option<Artifact>)
    | Correct(prior: nat, verdict: Verdict)
    | Maintain(kind: Kind, artifact: Artifact, revision: string, about: Option<nat>)
    | ServeCapture(resolved: Option<Artifact>)
    | ServeOutcome
    | Redeliver(event: Emitted)

  function Step(g: Log, op: Op): Log {
    match op
    case Judge(e) => WithEvaluation(g, e)
    case Decide(v, t, trace) => ExplicitVerdict(g, v, t, trace).0
    case Correct(prior, v) => Supersede(g, prior, v).0
    case Maintain(k, a, revision, e) =>
      if Terminal(k) || revision == "" then g else RecordMaintenance(g, k, a, ForRevision(a.id, revision, k), e).0
    case ServeCapture(trace) =>
      if g.captures == [] then g else Capture(g.(captures := g.captures[1..]), g.captures[0], trace).0
    case ServeOutcome =>
      if g.outcomes == [] then g
      else g.(outcomes := g.outcomes[1..], reliability := Projected(g.reliability, g.outcomes[0]))
    case Redeliver(o) => g.(reliability := Projected(g.reliability, o))
  }

  function After(run: seq<Op>): Log {
    if run == [] then EMPTY else Step(After(run[..|run| - 1]), run[|run| - 1])
  }

  // ----- one terminal record an evaluation

  predicate TerminalFor(r: Record, e: Option<nat>) { Terminal(r.kind) && e.Some? && r.evaluation == e }

  ghost predicate OneTerminal(g: Log) {
    forall i, j :: 0 <= i < j < |g.records| && Terminal(g.records[j].kind) ==>
        !TerminalFor(g.records[i], g.records[j].evaluation)
  }

  /** Every contribution is recorded once. */
  ghost predicate OnePerKey(g: Log) {
    forall i, j :: 0 <= i < j < |g.records| ==> g.records[i].key != g.records[j].key
  }

  /** A record speaks of a named artifact and of recorded evaluations, and its key fits its kind. */
  predicate GroundedRecord(g: Log, r: Record) {
    && Named(r.artifact)
    && (r.evaluation.Some? ==> r.evaluation.value < |g.evaluations|)
    && (r.key.ForReplacement? ==> r.key.evaluation < |g.evaluations|)
    && (Terminal(r.kind) <==> r.key.ForTerminal?)
    && (r.key.ForTerminal? ==> r.evaluation == Some(r.key.evaluation))
  }

  ghost predicate Grounded(g: Log) {
    && (forall i :: 0 <= i < |g.records| ==> GroundedRecord(g, g.records[i]))
    && (forall i :: 0 <= i < |g.outcomes| ==> Named(g.outcomes[i].artifact))
  }

  ghost predicate Sound(g: Log) { OneTerminal(g) && OnePerKey(g) && Grounded(g) }

  lemma TerminalSound(g: Log, kind: Kind, e: nat, trace: Option<Artifact>)
    requires Sound(g) && Terminal(kind)
    ensures Sound(RecordTerminal(g, kind, e, trace).0)
  {
  }

  lemma MaintenanceSound(g: Log, kind: Kind, a: Artifact, key: ContributionKey, e: Option<nat>)
    requires Sound(g) && !Terminal(kind) && !key.ForTerminal? &&
             (key.ForReplacement? ==> key.evaluation < |g.evaluations|)
    ensures Sound(RecordMaintenance(g, kind, a, key, e).0)
  {
  }

  lemma EvaluationSound(g: Log, e: Evaluation)
    requires Sound(g)
    ensures Sound(WithEvaluation(g, e))
  {
  }

  lemma SupersedeSound(g: Log, prior: nat, v: Verdict)
    requires Sound(g)
    ensures Sound(Supersede(g, prior, v).0)
  {
    if prior < |g.evaluations| && TerminalRecord(g.records, prior).Some? {
      var a, n := g.records[TerminalRecord(g.records, prior).value].artifact, |g.evaluations|;
      var h := WithEvaluation(g, Evaluation(EvaluationSubject, "", JudgmentOf(v), false, None));
      EvaluationSound(g, Evaluation(EvaluationSubject, "", JudgmentOf(v), false, None));
      MaintenanceSound(h, Superseded, a, ForReplacement(a.id, n, Superseded), Some(prior));
      TerminalSound(RecordMaintenance(h, Superseded, a, ForReplacement(a.id, n, Superseded), Some(prior)).0,
                    KindOf(v), n, Some(a));
    }
  }

  lemma StepSound(g: Log, op: Op)
    requires Sound(g)
    ensures Sound(Step(g, op))
  {
    match op
    case Judge(e) => EvaluationSound(g, e);
    case Decide(v, t, trace) =>
      if t.Fresh? {
        EvaluationSound(g, Evaluation(t.subjectType, t.subject, JudgmentOf(v), true, None));
        TerminalSound(WithEvaluation(g, Evaluation(t.subjectType, t.subject, JudgmentOf(v), true, None)), KindOf(v),
                      |g.evaluations|, trace);
      } else {
        TerminalSound(g, KindOf(v), t.evaluation, trace);
      }
    case Correct(prior, v) => SupersedeSound(g, prior, v);
    case Maintain(k, a, revision, e) =>
      if !Terminal(k) { MaintenanceSound(g, k, a, ForRevision(a.id, revision, k), e); }
    case ServeCapture(trace) =>
      if g.captures != [] { CaptureSound(g.(captures := g.captures[1..]), g.captures[0], trace); }
    case _ =>
  }

  lemma CaptureSound(g: Log, e: nat, trace: Option<Artifact>)
    requires Sound(g)
    ensures Sound(Capture(g, e, trace).0)
  {
    if e < |g.evaluations| {
      var ev := g.evaluations[e];
      if MemoryContradiction(ev) {
        if ev.revision.Some? {
          MaintenanceSound(g, Contradicted, Artifact(ev.subject, MemoryKind(ev.subjectType)),
                           ForRevision(ev.subject, ev.revision.value, Contradicted), Some(e));
        }
      } else if TerminalOf(ev.judgment).Some? {
        TerminalSound(g, TerminalOf(ev.judgment).value, e, trace);
      }
    }
  }

  /** Over every run of verdicts, captures, corrections and maintenance each evaluation has at
      most one terminal record. */
  lemma {:induction false} RunSound(run: seq<Op>)
    ensures Sound(After(run))
  {
    if run == [] {
    } else {
      RunSound(run[..|run| - 1]);
      StepSound(After(run[..|run| - 1]), run[|run| - 1]);
    }
  }

  // ----- what a capture records, in terms of the evaluation

  /** Judgments that the artifact helped, hurt, or made no difference. */
  ghost predicate MeansKind(j: Judgment, k: Kind) {
    match k
    case Helped => j in {Accepted, CompletedSuccessfully, Judgment.Done}
    case Hurt => j in {Rejected, Failed}
    case Neutral => j in {CompletedNeutrally, JudgedNeutral, NotRelevant}
    case _ => false
  }

  /** Judged by its work: a task, a capability result, or a skill usage that asks for it. */
  ghost predicate JudgedByWork(ev: Evaluation) {
    ev.subjectType in {TaskSubject, CapabilityResult} || (ev.subjectType == SkillUsage && ev.capture)
  }

  ghost predicate ContradictedMemory(ev: Evaluation) {
    ev.judgment == FoundContradicted && ev.subjectType in {MemoryItem, MemoryClaim}
  }

  lemma Undecided(g: Log, e: nat)
    requires forall i :: 0 <= i < |g.records| && g.records[i].evaluation == Some(e) ==>
               g.records[i].kind !in {Helped, Hurt, Neutral}
    ensures TerminalRecord(g.records, e) == None
  {
  }

  /** No terminal record of the evaluation is there. */
  ghost predicate Open(g: Log, e: nat) {
    forall i :: 0 <= i < |g.records| && g.records[i].evaluation == Some(e) ==>
      g.records[i].kind !in {Helped, Hurt, Neutral}
  }

  ghost predicate SubjectNamed(trace: Option<Artifact>) {
    trace != None && trace.value.id != "" && trace.value.kind != ""
  }

  /** A terminal outcome is recorded if and only if its evaluation exists and is open and its subject
      resolves to an artifact with an id and a kind; else nothing changes, and a decided evaluation is
      in conflict exactly when what decided it first was another kind. */
  lemma TerminalIff(g: Log, kind: Kind, e: nat, trace: Option<Artifact>)
    requires kind in {Helped, Hurt, Neutral}
    ensures var r := RecordTerminal(g, kind, e, trace);
            && (r.1 == Recorded <==> e < |g.evaluations| && Open(g, e) && SubjectNamed(trace))
            && (r.1 == Recorded ==> r.0 == Append(g, Record(kind, Some(e), trace.value, ForTerminal(e))))
            && (r.1 != Recorded ==> r.0 == g)
            && (r.1 == NoEvaluation <==> e >= |g.evaluations|)
            && (r.1 in {AlreadyRecorded, ConflictingTerminal} <==> e < |g.evaluations| && !Open(g, e))
  {
  }

  /** A verdict on a subject without an evaluation creates one, to be left alone by the capture's own
      reading, and decides it if the subject is named. */
  lemma VerdictCreates(g: Log, v: Verdict, st: SubjectType, subject: string, trace: Option<Artifact>)
    requires Open(g, |g.evaluations|)
    ensures var h, n := ExplicitVerdict(g, v, Fresh(st, subject), trace).0, |g.evaluations|;
            var judged := if v == Accept then Accepted else if v == Reject then Rejected else CompletedNeutrally;
            var k := if v == Accept then Helped else if v == Reject then Hurt else Neutral;
            && h.evaluations == g.evaluations + [Evaluation(st, subject, judged, true, None)]
            && h.captures == g.captures + [n]
            && h.records == g.records + if SubjectNamed(trace) then [Record(k, Some(n), trace.value, ForTerminal(n))]
                                        else []
  {
    TerminalIff(WithEvaluation(g, Evaluation(st, subject, JudgmentOf(v), true, None)), KindOf(v), |g.evaluations|,
                trace);
  }

  /** After every run a correction of an evaluation that was decided by record `i` adds a new evaluation
      that is never captured, closes the old artifact's outcome as superseded, and decides the new one
      about the same artifact; one of an open evaluation changes nothing. */
  lemma CorrectionRecords(run: seq<Op>, prior: nat, v: Verdict, i: nat)
    requires i < |After(run).records| && After(run).records[i].evaluation == Some(prior)
    requires After(run).records[i].kind in {Helped, Hurt, Neutral}
    ensures var g := After(run);
            var h, n, a := Supersede(g, prior, v).0, |g.evaluations|, g.records[i].artifact;
            var judged := if v == Accept then Accepted else if v == Reject then Rejected else CompletedNeutrally;
            var k := if v == Accept then Helped else if v == Reject then Hurt else Neutral;
            && h.evaluations == g.evaluations + [Evaluation(EvaluationSubject, "", judged, false, None)]
            && h.records == g.records + [Record(Superseded, Some(prior), a, ForReplacement(a.id, n, Superseded)),
                                         Record(k, Some(n), a, ForTerminal(n))]
  {
    var g := After(run);
    RunSound(run);
    var a, n := g.records[i].artifact, |g.evaluations|;
    assert TerminalRecord(g.records, prior) == Some(i) by { OnlyTerminal(g, prior, i); }
    assert GroundedRecord(g, g.records[i]);
    var h := WithEvaluation(g, Evaluation(EvaluationSubject, "", JudgmentOf(v), false, None));
    var key := ForReplacement(a.id, n, Superseded);
    KeyIsNew(g, key);
    var m := RecordMaintenance(h, Superseded, a, key, Some(prior)).0;
    assert m.records == g.records + [Record(Superseded, Some(prior), a, key)];
    forall j | 0 <= j < |m.records| ensures m.records[j].evaluation != Some(n) {
      if j < |g.records| { assert GroundedRecord(g, g.records[j]); }
    }
    TerminalIff(m, KindOf(v), n, Some(a));
  }

  lemma KeyIsNew(g: Log, key: ContributionKey)
    requires Grounded(g) && key.ForReplacement? && key.evaluation >= |g.evaluations|
    ensures !HasKey(g.records, key)
  {
    forall j | 0 <= j < |g.records| ensures g.records[j].key != key { assert GroundedRecord(g, g.records[j]); }
  }

  lemma OnlyTerminal(g: Log, e: nat, i: nat)
    requires OneTerminal(g) && i < |g.records| && g.records[i].evaluation == Some(e) && Terminal(g.records[i].kind)
    ensures TerminalRecord(g.records, e) == Some(i)
  {
    var j := TerminalRecord(g.records, e).value;
    assert j < i ==> !TerminalFor(g.records[j], g.records[i].evaluation);
    assert i < j ==> !TerminalFor(g.records[i], g.records[j].evaluation);
  }

  /** A maintenance operation of a run records nothing that decides an evaluation, nothing without a
      revision and nothing nameless, and a contribution once. */
  lemma MaintainIff(g: Log, k: Kind, a: Artifact, revision: string, e: Option<nat>)
    ensures var h, key := Step(g, Maintain(k, a, revision, e)), ForRevision(a.id, revision, k);
            h == if k !in {Helped, Hurt, Neutral} && revision != "" && a.id != "" && a.kind != "" &&
                    (e == None || e.value < |g.evaluations|) && (forall r :: r in g.records ==> r.key != key)
                 then Append(g, Record(k, e, a, key)) else g
  {
    assert HasKey(g.records, ForRevision(a.id, revision, k)) <==>
           exists r :: r in g.records && r.key == ForRevision(a.id, revision, k);
  }

  /** The capture of an undecided evaluation with a named subject records the kind its judgment means,
      for work it judges, and nothing for any other. */
  lemma CaptureRecords(g: Log, e: nat, a: Artifact, k: Kind)
    requires e < |g.evaluations| && !ContradictedMemory(g.evaluations[e]) && a.id != "" && a.kind != ""
    requires forall i :: 0 <= i < |g.records| && g.records[i].evaluation == Some(e) ==>
               g.records[i].kind !in {Helped, Hurt, Neutral}
    ensures var ev, h := g.evaluations[e], Capture(g, e, Some(a)).0;
            && (JudgedByWork(ev) && MeansKind(ev.judgment, k) ==>
                  h == Append(g, Record(k, Some(e), a, ForTerminal(e))))
            && (!JudgedByWork(ev) || ev.judgment in {FoundContradicted, OtherJudgment} ==> h == g)
  {
    Undecided(g, e);
  }

  /** A contradicted memory with a named evidence revision records one contradiction a revision, about
      the memory itself; without a revision nothing is recorded. */
  lemma ContradictionRecords(g: Log, e: nat, trace: Option<Artifact>)
    requires e < |g.evaluations| && ContradictedMemory(g.evaluations[e]) && g.evaluations[e].subject != ""
    ensures var ev, h := g.evaluations[e], Capture(g, e, trace).0;
            var kind := if ev.subjectType == MemoryItem then "memory_item" else "memory_claim";
            && (ev.revision in {None, Some("")} ==> h == g)
            && (ev.revision !in {None, Some("")} ==>
                  var key := ForRevision(ev.subject, ev.revision.value, Contradicted);
                  h == if HasKey(g.records, key) then g
                       else Append(g, Record(Contradicted, Some(e), Artifact(ev.subject, kind), key)))
  {
    var ev := g.evaluations[e];
    var a := Artifact(ev.subject, MemoryKind(ev.subjectType));
    MemoryKindNamed(ev.subjectType);
    assert MemoryContradiction(ev) && Named(a);
    if ev.revision.Some? && ev.revision.value != "" {
      var key := ForRevision(ev.subject, ev.revision.value, Contradicted);
      assert Capture(g, e, trace).0 == RecordMaintenance(g, Contradicted, a, key, Some(e)).0;
    }
  }

  lemma MemoryKindNamed(t: SubjectType)
    ensures MemoryKind(t) != "" && MemoryKind(t) == if t == MemoryItem then "memory_item" else "memory_claim"
  {
    assert MemoryKind(t)[0] == 'm';
  }

  /** An explicit verdict records what it says: accepted work helped, rejected work hurt. */
  lemma VerdictRecords(g: Log, v: Verdict, e: nat, a: Artifact)
    requires e < |g.evaluations| && a.id != "" && a.kind != ""
    requires forall i :: 0 <= i < |g.records| && g.records[i].evaluation == Some(e) ==>
               g.records[i].kind !in {Helped, Hurt, Neutral}
    ensures var k := if v == Accept then Helped else if v == Reject then Hurt else Neutral;
            ExplicitVerdict(g, v, Existing(e), Some(a)).0 == Append(g, Record(k, Some(e), a, ForTerminal(e)))
  {
    Undecided(g, e);
  }

  // ----- captures against explicit verdicts

  lemma {:induction false} TerminalStays(records: seq<Record>, more: seq<Record>, e: nat)
    requires TerminalRecord(records, e).Some?
    ensures TerminalRecord(records + more, e) == TerminalRecord(records, e)
  {
    if more == [] {
      assert records + more == records;
    } else {
      assert (records + more)[..|records + more| - 1] == records + more[..|more| - 1];
      TerminalStays(records, more[..|more| - 1], e);
    }
  }

  /** Steps only add evaluations and records. */
  ghost predicate Grows(g: Log, h: Log) { g.evaluations <= h.evaluations && g.records <= h.records }

  lemma StepGrows(g: Log, op: Op)
    ensures Grows(g, Step(g, op))
  {
  }

  lemma {:induction false} RunGrows(run: seq<Op>, n: nat)
    requires n <= |run|
    ensures Grows(After(run[..n]), After(run))
  {
    if n == |run| {
      assert run[..n] == run;
    } else {
      assert run[..|run| - 1][..n] == run[..n];
      RunGrows(run[..|run| - 1], n);
      StepGrows(After(run[..|run| - 1]), run[|run| - 1]);
    }
  }

  /** The evaluation has the terminal record its own judgment calls for. */
  ghost predicate Settled(g: Log, e: nat, v: Verdict) {
    && e < |g.evaluations| && g.evaluations[e].judgment == JudgmentOf(v)
    && var i := TerminalRecord(g.records, e); i.Some? && g.records[i.value].kind == KindOf(v)
  }

  lemma SettledStays(g: Log, h: Log, e: nat, v: Verdict)
    requires Settled(g, e, v) && Grows(g, h)
    ensures Settled(h, e, v)
  {
    TerminalStays(g.records, h.records[|g.records|..], e);
    assert h.records == g.records + h.records[|g.records|..];
  }

  lemma AppendedTerminal(records: seq<Record>, r: Record, e: nat)
    requires TerminalRecord(records, e).None? && r.evaluation == Some(e) && Terminal(r.kind)
    ensures TerminalRecord(records + [r], e) == Some(|records|)
  {
    assert (records + [r])[..|records|] == records;
  }

  lemma NewIsUnrecorded(g: Log, e: nat)
    requires Grounded(g) && e >= |g.evaluations|
    ensures TerminalRecord(g.records, e).None?
  {
    if TerminalRecord(g.records, e).Some? { assert GroundedRecord(g, g.records[TerminalRecord(g.records, e).value]); }
  }

  lemma VerdictSettles(g: Log, v: Verdict, st: SubjectType, subject: string, a: Artifact)
    requires Sound(g) && Named(a)
    ensures Settled(ExplicitVerdict(g, v, Fresh(st, subject), Some(a)).0, |g.evaluations|, v)
  {
    NewIsUnrecorded(g, |g.evaluations|);
    AppendedTerminal(g.records, Record(KindOf(v), Some(|g.evaluations|), a, ForTerminal(|g.evaluations|)),
                     |g.evaluations|);
  }

  lemma CorrectionSettles(g: Log, prior: nat, v: Verdict)
    requires Sound(g) && prior < |g.evaluations| && TerminalRecord(g.records, prior).Some?
    ensures Settled(Supersede(g, prior, v).0, |g.evaluations|, v)
  {
    var known := TerminalRecord(g.records, prior);
    var a, n := g.records[known.value].artifact, |g.evaluations|;
    assert GroundedRecord(g, g.records[known.value]);
    NewIsUnrecorded(g, n);
    var h := WithEvaluation(g, Evaluation(EvaluationSubject, "", JudgmentOf(v), false, None));
    var m := RecordMaintenance(h, Superseded, a, ForReplacement(a.id, n, Superseded), Some(prior)).0;
    assert TerminalRecord(m.records, n).None? by { StillUnrecorded(h.records, m.records, n); }
    AppendedTerminal(m.records, Record(KindOf(v), Some(n), a, ForTerminal(n)), n);
  }

  lemma StillUnrecorded(records: seq<Record>, others: seq<Record>, e: nat)
    requires TerminalRecord(records, e).None?
    requires others == records || (others != [] && others[..|others| - 1] == records &&
               !Terminal(others[|others| - 1].kind))
    ensures TerminalRecord(others, e).None?
  {
  }

  /** An operation that creates an evaluation together with its terminal record. */
  predicate Decides(g: Log, op: Op) {
    || (op.Decide? && op.target.Fresh? && op.trace.Some? && Named(op.trace.value))
    || (op.Correct? && op.prior < |g.evaluations| && TerminalRecord(g.records, op.prior).Some?)
  }

  lemma DecisionSettles(g: Log, op: Op)
    requires Sound(g) && Decides(g, op)
    ensures Settled(Step(g, op), |g.evaluations|, op.verdict)
  {
    if op.Decide? {
      VerdictSettles(g, op.verdict, op.target.subjectType, op.target.subject, op.trace.value);
    } else {
      CorrectionSettles(g, op.prior, op.verdict);
    }
  }

  lemma SettledCapture(g: Log, e: nat, v: Verdict, trace: Option<Artifact>)
    requires Settled(g, e, v)
    ensures Capture(g, e, trace) == (g, AlreadyRecorded)
  {
  }

  lemma StepGrowsInto(before: seq<Op>, op: Op, since: seq<Op>) returns (h: Log)
    ensures h == Step(After(before), op) && Grows(h, After(before + [op] + since))
  {
    var run := before + [op] + since;
    h := After(before + [op]);
    assert (before + [op])[..|before|] == before && run[..|before| + 1] == before + [op];
    RunGrows(run, |before| + 1);
  }

  /** However the run goes on, capturing the evaluation an explicit verdict or a correction
      created changes nothing and never conflicts. */
  lemma CaptureAgrees(before: seq<Op>, op: Op, since: seq<Op>, trace: Option<Artifact>)
    requires Decides(After(before), op)
    ensures var g, e := After(before + [op] + since), |After(before).evaluations|;
            Capture(g, e, trace) == (g, AlreadyRecorded)
  {
    RunSound(before);
    DecisionSettles(After(before), op);
    var h := StepGrowsInto(before, op, since);
    SettledStays(h, After(before + [op] + since), |After(before).evaluations|, op.verdict);
    SettledCapture(After(before + [op] + since), |After(before).evaluations|, op.verdict, trace);
  }

  /** The operation is an explicit verdict on `e` that is recorded: nothing was recorded before it. */
  predicate DecidesFirst(g: Log, op: Op, e: nat) {
    && op.Decide? && op.target == Existing(e) && op.trace.Some? && Named(op.trace.value)
    && e < |g.evaluations| && TerminalRecord(g.records, e).None?
  }

  /** Operation `i` of the run is the explicit verdict recorded on evaluation `e`, and is of kind `k`. */
  ghost predicate DecidedAt(run: seq<Op>, i: nat, e: nat, k: Kind) {
    i < |run| && DecidesFirst(After(run[..i]), run[i], e) && KindOf(run[i].verdict) == k
  }

  ghost predicate DecidedExplicitly(run: seq<Op>, e: nat, k: Kind) {
    exists i: nat :: DecidedAt(run, i, e, k)
  }

  ghost predicate Explained(run: seq<Op>, g: Log, r: Record) {
    Terminal(r.kind) && r.evaluation.Some? && r.evaluation.value < |g.evaluations| ==>
      TerminalOf(g.evaluations[r.evaluation.value].judgment) == Some(r.kind) ||
          DecidedExplicitly(run, r.evaluation.value, r.kind)
  }

  lemma DecidedEarlier(run: seq<Op>, op: Op, e: nat, k: Kind)
    requires DecidedExplicitly(run, e, k)
    ensures DecidedExplicitly(run + [op], e, k)
  {
    var i: nat :| DecidedAt(run, i, e, k);
    assert (run + [op])[..i] == run[..i] && (run + [op])[i] == run[i];
    assert DecidedAt(run + [op], i, e, k);
  }

  lemma DecidedNow(run: seq<Op>, op: Op, e: nat)
    requires DecidesFirst(After(run), op, e)
    ensures DecidedExplicitly(run + [op], e, KindOf(op.verdict))
  {
    assert (run + [op])[..|run|] == run;
    assert DecidedAt(run + [op], |run|, e, KindOf(op.verdict));
  }

  predicate AsJudged(g: Log, r: Record) {
    Terminal(r.kind) && r.evaluation.Some? && r.evaluation.value < |g.evaluations| ==>
      TerminalOf(g.evaluations[r.evaluation.value].judgment) == Some(r.kind)
  }

  lemma CaptureAsJudged(g: Log, e: nat, trace: Option<Artifact>, i: nat)
    requires |g.records| <= i < |Capture(g, e, trace).0.records|
    ensures AsJudged(g, Capture(g, e, trace).0.records[i])
  {
  }

  lemma TerminalAsJudged(g: Log, kind: Kind, e: nat, trace: Option<Artifact>, i: nat)
    requires |g.records| <= i < |RecordTerminal(g, kind, e, trace).0.records|
    requires Terminal(kind) ==> TerminalOf(g.evaluations[e].judgment) == Some(kind)
    ensures AsJudged(RecordTerminal(g, kind, e, trace).0, RecordTerminal(g, kind, e, trace).0.records[i])
  {
  }

  /** A correction adds the supersession, which is not terminal, and the replacement's own value. */
  lemma SupersedeAsJudged(g: Log, prior: nat, v: Verdict, i: nat)
    requires |g.records| <= i < |Supersede(g, prior, v).0.records|
    ensures AsJudged(Supersede(g, prior, v).0, Supersede(g, prior, v).0.records[i])
  {
    var a, n := g.records[TerminalRecord(g.records, prior).value].artifact, |g.evaluations|;
    var h := WithEvaluation(g, Evaluation(EvaluationSubject, "", JudgmentOf(v), false, None));
    var m := RecordMaintenance(h, Superseded, a, ForReplacement(a.id, n, Superseded), Some(prior)).0;
    if i >= |m.records| {
      TerminalAsJudged(m, KindOf(v), n, Some(a), i);
    } else {
      assert Supersede(g, prior, v).0.records[i] == m.records[i] && m.records[i].kind == Superseded;
    }
  }

  lemma NewRecordExplained(run: seq<Op>, g: Log, op: Op, i: nat)
    requires Sound(g) && g == After(run) && |g.records| <= i < |Step(g, op).records|
    ensures Explained(run + [op], Step(g, op), Step(g, op).records[i])
  {
    match op
    case Decide(_, target, _) => if target.Existing? { DecidedNow(run, op, target.evaluation); }
    case Correct(prior, v) => SupersedeAsJudged(g, prior, v, i);
    case ServeCapture(trace) => CaptureAsJudged(g.(captures := g.captures[1..]), g.captures[0], trace, i);
    case Maintain(_, _, _, _) =>
  }

  /** Every terminal record says what the judgment calls for, or what the explicit verdict recorded
      on that evaluation said. */
  lemma {:induction false} RecordsExplained(run: seq<Op>, i: nat)
    requires i < |After(run).records|
    ensures Explained(run, After(run), After(run).records[i])
  {
    var init, op := run[..|run| - 1], run[|run| - 1];
    var g, h := After(init), After(run);
    assert run == init + [op];
    RunSound(init);
    StepGrows(g, op);
    if i < |g.records| {
      RecordsExplained(init, i);
      var r := g.records[i];
      assert h.records[i] == r && GroundedRecord(g, r);
      if r.evaluation.Some? && DecidedExplicitly(init, r.evaluation.value, r.kind) {
        DecidedEarlier(init, op, r.evaluation.value, r.kind);
      }
    } else {
      NewRecordExplained(init, g, op, i);
    }
  }

  lemma DecisionRecords(run: seq<Op>, i: nat, e: nat, k: Kind)
    requires DecidedAt(run, i, e, k)
    ensures e < |After(run[..i + 1]).evaluations|
    ensures var records := After(run[..i + 1]).records;
            var r := TerminalRecord(records, e); r.Some? && records[r.value].kind == k
  {
    var g, op := After(run[..i]), run[i];
    assert run[..i + 1][..i] == run[..i];
    AppendedTerminal(g.records, Record(k, Some(e), op.trace.value, ForTerminal(e)), e);
  }

  lemma DecisionStays(run: seq<Op>, i: nat, e: nat, k: Kind)
    requires DecidedAt(run, i, e, k)
    ensures e < |After(run).evaluations|
    ensures var r := TerminalRecord(After(run).records, e); r.Some? && After(run).records[r.value].kind == k
  {
    var h := After(run[..i + 1]);
    DecisionRecords(run, i, e, k);
    RunGrows(run, i + 1);
    TerminalStays(h.records, After(run).records[|h.records|..], e);
    assert After(run).records == h.records + After(run).records[|h.records|..];
  }

  /** After every run the capture of an evaluation conflicts if and only if the evaluation is one
      to capture and the explicit verdict recorded on it says something else than its judgment. */
  lemma ConflictIff(run: seq<Op>, e: nat, trace: Option<Artifact>)
    requires e < |After(run).evaluations|
    ensures var ev := After(run).evaluations[e];
            Capture(After(run), e, trace).1 == ConflictingTerminal <==>
              Captured(ev) && TerminalOf(ev.judgment).Some? &&
              exists k :: DecidedExplicitly(run, e, k) && TerminalOf(ev.judgment) != Some(k)
  {
    var g := After(run);
    if Capture(g, e, trace).1 == ConflictingTerminal {
      var r := TerminalRecord(g.records, e).value;
      RecordsExplained(run, r);
      assert DecidedExplicitly(run, e, g.records[r].kind);
    } else {
      forall k | DecidedExplicitly(run, e, k) && Captured(g.evaluations[e]) &&
          TerminalOf(g.evaluations[e].judgment).Some?
        ensures TerminalOf(g.evaluations[e].judgment) == Some(k)
      {
        var i: nat :| DecidedAt(run, i, e, k);
        DecisionStays(run, i, e, k);
      }
    }
  }

  /** Such a conflict does happen. */
  lemma ContraryVerdictExample()
    ensures var task := Evaluation(TaskSubject, "t", Done, false, None);
            var a := Some(Artifact("t", "task"));
            Capture(After([Judge(task), Decide(Reject, Existing(0), a)]), 0, a).1 == ConflictingTerminal
  {
    var task := Evaluation(TaskSubject, "t", Done, false, None);
    var a := Artifact("t", "task");
    var r0, r1: seq<Op> := [Judge(task)], [Judge(task), Decide(Reject, Existing(0), Some(a))];
    assert r0[..0] == [] && r1[..1] == r0;
    var g := After(r0);
    assert After(r0[..0]) == EMPTY && EMPTY.evaluations + [task] == [task] && EMPTY.captures + [0] == [0];
    assert g == WithEvaluation(EMPTY, task) == Log([task], [], [0], [], map[]);
    AppendedTerminal([], Record(Hurt, Some(0), a, ForTerminal(0)), 0);
    assert After(r1).records == [] + [Record(Hurt, Some(0), a, ForTerminal(0))];
  }

  // ----- tallies

  function RecordCount(records: seq<Record>, artifact: string, k: Kind): nat {
    if records == [] then 0
    else
      var last := records[|records| - 1];
      RecordCount(records[..|records| - 1], artifact, k) +
      if last.artifact.id == artifact && last.kind == k then 1 else 0
  }

  function PendingCount(outcomes: seq<Emitted>, artifact: string, k: Kind): nat {
    if outcomes == [] then 0
    else
      PendingCount(outcomes[1..], artifact, k) +
      if outcomes[0].artifact.id == artifact && outcomes[0].kind == k then 1 else 0
  }

  /** Events delivered again although their queue entry is served elsewhere. */
  function Redelivered(run: seq<Op>, artifact: string, k: Kind): nat {
    if run == [] then 0
    else
      var last := run[|run| - 1];
      Redelivered(run[..|run| - 1], artifact, k) +
      if last.Redeliver? && Named(last.event.artifact) && last.event.artifact.id == artifact && last.event.kind == k
      then 1 else 0
  }

  lemma {:induction false} PendingAppend(outcomes: seq<Emitted>, o: Emitted, artifact: string, k: Kind)
    ensures PendingCount(outcomes + [o], artifact, k) ==
            PendingCount(outcomes, artifact, k) + if o.artifact.id == artifact && o.kind == k then 1 else 0
  {
    if outcomes == [] {
      assert outcomes + [o] == [o];
    } else {
      assert (outcomes + [o])[1..] == outcomes[1..] + [o];
      PendingAppend(outcomes[1..], o, artifact, k);
    }
  }

  /** Records not yet tallied are pending. */
  function Gap(g: Log, artifact: string, k: Kind): int {
    RecordCount(g.records, artifact, k) - PendingCount(g.outcomes, artifact, k)
  }

  lemma AppendGap(g: Log, r: Record, artifact: string, k: Kind)
    ensures Gap(Append(g, r), artifact, k) == Gap(g, artifact, k)
  {
    PendingAppend(g.outcomes, Emitted(r.kind, r.artifact), artifact, k);
    assert (g.records + [r])[..|g.records|] == g.records;
  }

  /** Recording moves no tally and leaves records and pending events in step. */
  ghost predicate SameGap(g: Log, h: Log, artifact: string, k: Kind) {
    Gap(h, artifact, k) == Gap(g, artifact, k) && h.reliability == g.reliability
  }

  lemma TerminalGap(g: Log, kind: Kind, e: nat, trace: Option<Artifact>, artifact: string, k: Kind)
    ensures SameGap(g, RecordTerminal(g, kind, e, trace).0, artifact, k)
  {
    if trace.Some? { AppendGap(g, Record(kind, Some(e), trace.value, ForTerminal(e)), artifact, k); }
  }

  lemma MaintenanceGap(g: Log, kind: Kind, a: Artifact, key: ContributionKey, e: Option<nat>, artifact: string, k: Kind)
    ensures SameGap(g, RecordMaintenance(g, kind, a, key, e).0, artifact, k)
  {
    AppendGap(g, Record(kind, e, a, key), artifact, k);
  }

  lemma VerdictGap(g: Log, v: Verdict, t: Target, trace: Option<Artifact>, artifact: string, k: Kind)
    ensures SameGap(g, ExplicitVerdict(g, v, t, trace).0, artifact, k)
  {
    if t.Fresh? {
      var h := WithEvaluation(g, Evaluation(t.subjectType, t.subject, JudgmentOf(v), true, None));
      TerminalGap(h, KindOf(v), |g.evaluations|, trace, artifact, k);
    } else {
      TerminalGap(g, KindOf(v), t.evaluation, trace, artifact, k);
    }
  }

  lemma SupersedeGap(g: Log, prior: nat, v: Verdict, artifact: string, k: Kind)
    ensures SameGap(g, Supersede(g, prior, v).0, artifact, k)
  {
    if prior < |g.evaluations| && TerminalRecord(g.records, prior).Some? {
      var a, n := g.records[TerminalRecord(g.records, prior).value].artifact, |g.evaluations|;
      var h := WithEvaluation(g, Evaluation(EvaluationSubject, "", JudgmentOf(v), false, None));
      var key := ForReplacement(a.id, n, Superseded);
      MaintenanceGap(h, Superseded, a, key, Some(prior), artifact, k);
      TerminalGap(RecordMaintenance(h, Superseded, a, key, Some(prior)).0, KindOf(v), n, Some(a), artifact, k);
    }
  }

  lemma CaptureGap(g: Log, e: nat, trace: Option<Artifact>, artifact: string, k: Kind)
    ensures SameGap(g, Capture(g, e, trace).0, artifact, k)
  {
    if e < |g.evaluations| {
      var ev := g.evaluations[e];
      if MemoryContradiction(ev) {
        if ev.revision.Some? {
          MaintenanceGap(g, Contradicted, Artifact(ev.subject, MemoryKind(ev.subjectType)),
                         ForRevision(ev.subject, ev.revision.value, Contradicted), Some(e), artifact, k);
        }
      } else if TerminalOf(ev.judgment).Some? {
        TerminalGap(g, TerminalOf(ev.judgment).value, e, trace, artifact, k);
      }
    }
  }

  lemma ProjectionCounts(g: Log, o: Emitted, artifact: string, k: Kind)
    ensures var h := g.(reliability := Projected(g.reliability, o));
            TallyOf(h, artifact, k) ==
            TallyOf(g, artifact, k) + if Named(o.artifact) && o.artifact.id == artifact && o.kind == k then 1 else 0
  {
  }

  lemma StepTally(g: Log, op: Op, artifact: string, k: Kind)
    requires Grounded(g)
    ensures var h := Step(g, op);
            TallyOf(h, artifact, k) - Gap(h, artifact, k) ==
            TallyOf(g, artifact, k) - Gap(g, artifact, k) + Redelivered([op], artifact, k)
  {
    assert [op][..0] == [];
    match op
    case Decide(v, t, trace) => VerdictGap(g, v, t, trace, artifact, k);
    case Correct(prior, v) => SupersedeGap(g, prior, v, artifact, k);
    case Maintain(kind, a, revision, e) =>
      MaintenanceGap(g, kind, a, ForRevision(a.id, revision, kind), e, artifact, k);
    case ServeCapture(trace) =>
      if g.captures != [] { CaptureGap(g.(captures := g.captures[1..]), g.captures[0], trace, artifact, k); }
    case ServeOutcome =>
      if g.outcomes != [] { ProjectionCounts(g, g.outcomes[0], artifact, k); }
    case Redeliver(o) => ProjectionCounts(g, o, artifact, k);
    case Judge(_) =>
  }

  /** Over every run an artifact's tally of a kind, with the pending events, is the number of its
      records of that kind plus the number of events delivered twice.  So once the queue is
      served the tally is right if and only if nothing was delivered twice. */
  lemma {:induction false} TalliesCountRecords(run: seq<Op>, artifact: string, k: Kind)
    ensures var g := After(run);
            TallyOf(g, artifact, k) + PendingCount(g.outcomes, artifact, k) ==
            RecordCount(g.records, artifact, k) + Redelivered(run, artifact, k)
  {
    if run == [] {
    } else {
      var init, op := run[..|run| - 1], run[|run| - 1];
      TalliesCountRecords(init, artifact, k);
      RunSound(init);
      StepTally(After(init), op, artifact, k);
      assert [op][..0] == [];
    }
  }

  // ----- the capabilities and behaviors

  class OutcomePack {
    var evaluations: seq<Evaluation>
    var records: seq<Record>
    var captures: seq<nat>
    var outcomes: seq<Emitted>
    var reliability: map<string, Reliability>

    function Value(): Log
      reads this
    {
      Log(evaluations, records, captures, outcomes, reliability)
    }

    constructor ()
      ensures Value() == After([])
    {
      evaluations, records, captures, outcomes, reliability := [], [], [], [], map[];
    }

    method FindTerminal(e: nat) returns (i: Option<nat>)
      ensures i == TerminalRecord(records, e)
    {
      i := None;
      for k := 0 to |records|
        invariant i == TerminalRecord(records[..k], e)
      {
        assert records[..k + 1][..k] == records[..k];
        if i.None? && records[k].evaluation == Some(e) && Terminal(records[k].kind) { i := Some(k); }
      }
      assert records[..|records|] == records;
    }

    method Emit(r: Record)
      modifies this
      ensures Value() == Append(old(Value()), r)
    {
      outcomes := outcomes + [Emitted(r.kind, r.artifact)];
      records := records + [r];
    }

    method RecordTerminalOutcome(kind: Kind, e: nat, trace: Option<Artifact>) returns (outcome: Outcome)
      modifies this
      ensures (Value(), outcome) == RecordTerminal(old(Value()), kind, e, trace)
    {
      if e >= |evaluations| { return NoEvaluation; }
      var known := FindTerminal(e);
      if known.Some? {
        return if records[known.value].kind == kind then AlreadyRecorded else ConflictingTerminal;
      }
      if trace.None? || !Named(trace.value) { return NoSubject; }
      Emit(Record(kind, Some(e), trace.value, ForTerminal(e)));
      return Recorded;
    }

    method RecordMaintenanceOutcome(kind: Kind, artifact: Artifact, key: ContributionKey, e: Option<nat>)
      returns (outcome: Outcome)
      modifies this
      ensures (Value(), outcome) == RecordMaintenance(old(Value()), kind, artifact, key, e)
    {
      if !Named(artifact) { return NoSubject; }
      for k := 0 to |records|
        invariant forall i :: 0 <= i < k ==> records[i].key != key
        invariant Value() == old(Value())
      {
        if records[k].key == key { return AlreadyRecorded; }
      }
      if e.Some? && e.value >= |evaluations| { return NoEvaluation; }
      Emit(Record(kind, e, artifact, key));
      return Recorded;
    }

    method AddEvaluation(e: Evaluation) returns (id: nat)
      modifies this
      ensures Value() == WithEvaluation(old(Value()), e) && id == |old(evaluations)|
    {
      id := |evaluations|;
      captures := captures + [id];
      evaluations := evaluations + [e];
    }

    method RecordExplicitVerdict(v: Verdict, t: Target, trace: Option<Artifact>) returns (outcome: Outcome)
      modifies this
      ensures (Value(), outcome) == ExplicitVerdict(old(Value()), v, t, trace)
    {
      var e: nat;
      match t {
        case Existing(id) => e := id;
        case Fresh(st, subject) => e := AddEvaluation(Evaluation(st, subject, JudgmentOf(v), true, None));
      }
      outcome := RecordTerminalOutcome(KindOf(v), e, trace);
    }

    method SupersedeEvaluation(prior: nat, v: Verdict) returns (outcome: Outcome)
      modifies this
      ensures (Value(), outcome) == Supersede(old(Value()), prior, v)
    {
      if prior >= |evaluations| { return NoEvaluation; }
      var known := FindTerminal(prior);
      if known.None? { return NoSubject; }
      var a := records[known.value].artifact;
      var n := AddEvaluation(Evaluation(EvaluationSubject, "", JudgmentOf(v), false, None));
      var _ := RecordMaintenanceOutcome(Superseded, a, ForReplacement(a.id, n, Superseded), Some(prior));
      outcome := RecordTerminalOutcome(KindOf(v), n, Some(a));
    }

    method EvaluationOutcomeCapture(e: nat, trace: Option<Artifact>) returns (outcome: Outcome)
      modifies this
      ensures (Value(), outcome) == Capture(old(Value()), e, trace)
    {
      if e >= |evaluations| { return NoEvaluation; }
      var ev := evaluations[e];
      if MemoryContradiction(ev) {
        if ev.revision.None? || ev.revision.value == "" { return AlreadyRecorded; }
        outcome := RecordMaintenanceOutcome(Contradicted, Artifact(ev.subject, MemoryKind(ev.subjectType)),
                                            ForRevision(ev.subject, ev.revision.value, Contradicted), Some(e));
        return;
      }
      var kind := TerminalOf(ev.judgment);
      if !Captured(ev) || kind.None? { return AlreadyRecorded; }
      outcome := RecordTerminalOutcome(kind.value, e, trace);
    }

    method ArtifactReliabilityProjector(o: Emitted)
      modifies this`reliability
      ensures reliability == Projected(old(reliability), o)
    {
      if !Named(o.artifact) { return; }
      var tallies := map[];
      if o.artifact.id in reliability { tallies := reliability[o.artifact.id].tallies; }
      tallies := tallies[o.kind := Count(tallies, o.kind) + 1];
      reliability := reliability[o.artifact.id := Reliability(tallies, o.kind)];
    }
  }
}
