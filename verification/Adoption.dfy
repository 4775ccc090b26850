/** The adoption ticket processor (packs/evolution/adopt.py) with the recorder that turns a
    loading promotion active (packs/evolution/behaviors.py).

    Objects are named by their place in the creation-ordered lists.  What the processor asks of
    the runtime (hash pin, gates, fork, dry run, promote, deregistration) is an arbitrary answer.
    A ticket is the list of its writes; what the list comes to is also given in closed form. */
module Adoption {
  import opened Prelude

  datatype ProposalStatus = Drafted | Gated | Rejected | Trialed | PendingApproval | Adopting | Promoted
                          | InConflict | Suspended | Denied | ProposalDisabled | NeedsOwner

  datatype Proposal = Proposal(pack: string, status: ProposalStatus)

  datatype Trial = Trial(proposal: nat, passed: bool, fork: string)

  datatype PromotionStatus = Loading | Active | Disabled

  datatype Promotion =
    Promotion(proposal: nat, pack: string, fork: string, status: PromotionStatus, supersededBy: Option<nat>)

  datatype Rollback = Rollback(promotion: nat, deregistered: bool)

  datatype TicketStatus = Open | Done | Aborted

  datatype Ticket = Ticket(disables: bool, target: nat, status: TicketStatus)

  /** `applied` holds the forks whose promote marker is in the event log.  `running` is the process's
      own: the proposal whose bundle the runtime holds under a pack name. */
  datatype Graph = Graph(proposals: seq<Proposal>, trials: seq<Trial>, promotions: seq<Promotion>,
                         rollbacks: seq<Rollback>, tickets: seq<Ticket>, applied: set<string>,
                         running: map<string, nat>)

  const EMPTY := Graph([], [], [], [], [], {}, map[])

  datatype Pin = Verified | Mismatch | Broken

  datatype Gates = Pass | Reject | Suspend

  datatype Answers =
    Answers(pin: Pin, gates: Gates, forkStored: bool, promotable: bool, promotes: bool, deregisters: bool)

  datatype Outcome = Vanished | OwnerOnly | HashMismatch | MaterializeError | GatesFailed | RetrialRequired | Conflict
                   | ConflictLate(promotion: nat) | PromotedAs(promotion: nat) | DisabledNow | AlreadyDisabled

  // ----- pieces of a step

  function WithTicket(g: Graph, i: nat, s: TicketStatus): Graph
    requires i < |g.tickets|
  {
    g.(tickets := g.tickets[i := g.tickets[i].(status := s)])
  }

  function WithProposal(g: Graph, p: nat, s: ProposalStatus): Graph
    requires p < |g.proposals|
  {
    g.(proposals := g.proposals[p := g.proposals[p].(status := s)])
  }

  /** Fork of the latest passing trial. */
  function LatestFork(trials: seq<Trial>, p: nat): Option<string> {
    if trials == [] then None
    else if trials[|trials| - 1].proposal == p && trials[|trials| - 1].passed then Some(trials[|trials| - 1].fork)
    else LatestFork(trials[..|trials| - 1], p)
  }

  /** First loading promotion of a fork. */
  function FirstLoading(promotions: seq<Promotion>, fork: string): Option<nat>
    ensures var q := FirstLoading(promotions, fork);
            q.Some? ==>
              q.value < |promotions| && promotions[q.value].fork == fork && promotions[q.value].status == Loading &&
              forall k :: 0 <= k < q.value ==> promotions[k].fork != fork || promotions[k].status != Loading
    ensures FirstLoading(promotions, fork).None? ==>
              forall k :: 0 <= k < |promotions| ==> promotions[k].fork != fork || promotions[k].status != Loading
  {
    if promotions == [] then None
    else
      var before := FirstLoading(promotions[..|promotions| - 1], fork);
      var last := promotions[|promotions| - 1];
      if before.Some? then before
      else if last.fork == fork && last.status == Loading then Some(|promotions| - 1)
      else None
  }

  /** The recorder on the promote marker: it flips the first loading promotion of the fork. */
  function Recorded(g: Graph, fork: string): Graph {
    var q := FirstLoading(g.promotions, fork);
    if fork == "" || q.None? then g
    else
      var h := g.(promotions := g.promotions[q.value := g.promotions[q.value].(status := Active)]);
      var p := g.promotions[q.value].proposal;
      if p < |g.proposals| then WithProposal(h, p, Promoted) else h
  }

  function Flipped(promotions: seq<Promotion>, fork: string): seq<Promotion> {
    var q := FirstLoading(promotions, fork);
    if fork == "" || q.None? then promotions else promotions[q.value := promotions[q.value].(status := Active)]
  }

  predicate ToSupersede(m: Promotion, k: nat, pack: string, by': nat) {
    k != by' && m.pack == pack && m.status == Active
  }

  function SupersedeOne(m: Promotion, k: nat, pack: string, by': nat): Promotion {
    if ToSupersede(m, k, pack, by') then m.(status := Disabled, supersededBy := Some(by')) else m
  }

  function Superseded(promotions: seq<Promotion>, pack: string, by': nat): seq<Promotion> {
    seq(|promotions|, k requires 0 <= k < |promotions| => SupersedeOne(promotions[k], k, pack, by'))
  }

  // ----- one ticket

  predicate HasFork(g: Graph, p: nat) { LatestFork(g.trials, p).Some? && LatestFork(g.trials, p).value != "" }

  /** Why an adopt ticket stops before anything is loaded.  A trial without a fork id has no fork. */
  function Refusal(g: Graph, p: nat, a: Answers): Option<Outcome> {
    if p >= |g.proposals| then Some(Vanished)
    else if g.proposals[p].status == NeedsOwner then Some(OwnerOnly)
    else if a.pin == Mismatch then Some(HashMismatch)
    else if a.pin == Broken then Some(MaterializeError)
    else if a.gates != Pass then Some(GatesFailed)
    else if !HasFork(g, p) || !a.forkStored then Some(RetrialRequired)
    else if !a.promotable then Some(Conflict)
    else None
  }

  /** The status a refusal leaves on the proposal, if it leaves one. */
  function Verdict(r: Outcome, a: Answers): Option<ProposalStatus> {
    match r
    case HashMismatch => Some(Suspended)
    case MaterializeError => Some(Suspended)
    case GatesFailed => Some(if a.gates == Suspend then Suspended else Rejected)
    case RetrialRequired => Some(Gated)
    case Conflict => Some(InConflict)
    case _ => None
  }

  function GateStatus(gates: Gates): ProposalStatus {
    match gates
    case Pass => Gated
    case Reject => Rejected
    case Suspend => Suspended
  }

  /** The promotion an adopt ticket records when it has loaded the pack. */
  function Made(g: Graph, p: nat): Promotion
    requires p < |g.proposals| && LatestFork(g.trials, p).Some?
  {
    Promotion(p, g.proposals[p].pack, LatestFork(g.trials, p).value, Loading, None)
  }

  /** The graph once the pack is loaded, over the one of its name, and its promotion recorded as loading. */
  function Loaded(g: Graph, p: nat): Graph
    requires p < |g.proposals| && LatestFork(g.trials, p).Some?
  {
    g.(running := g.running[g.proposals[p].pack := p], promotions := g.promotions + [Made(g, p)])
  }

  /** The graph once the promote went through, before the runtime settles. */
  function Applied(g: Graph, i: nat, p: nat): Graph
    requires i < |g.tickets| && p < |g.proposals| && LatestFork(g.trials, p).Some?
  {
    var h := Loaded(g, p);
    WithProposal(WithTicket(h.(applied := h.applied + {LatestFork(g.trials, p).value}), i, Done), p, Adopting)
  }

  /** The graph once the recorder ran and the pack's other active promotions are superseded. */
  function Settled(g: Graph, i: nat, p: nat): Graph
    requires i < |g.tickets| && p < |g.proposals| && LatestFork(g.trials, p).Some?
  {
    var r := Recorded(Applied(g, i, p), LatestFork(g.trials, p).value);
    r.(promotions := Superseded(r.promotions, g.proposals[p].pack, |g.promotions|))
  }

  function Adopted(g: Graph, i: nat, a: Answers): (Graph, Outcome)
    requires i < |g.tickets|
  {
    var p := g.tickets[i].target;
    var refusal := Refusal(g, p, a);
    if refusal.Some? then
      var h := WithTicket(g, i, Aborted);
      var verdict := Verdict(refusal.value, a);
      (if verdict.Some? && p < |g.proposals| then WithProposal(h, p, verdict.value) else h, refusal.value)
    else if !a.promotes then
      (WithProposal(WithTicket(Loaded(g, p), i, Aborted), p, InConflict), ConflictLate(|g.promotions|))
    else
      (Settled(g, i, p), PromotedAs(|g.promotions|))
  }

  /** What becomes of a ticket that has passed the gates. */
  function ForkOutcome(g: Graph, p: nat, a: Answers): Outcome {
    if !HasFork(g, p) || !a.forkStored then RetrialRequired
    else if !a.promotable then Conflict
    else if a.promotes then PromotedAs(|g.promotions|)
    else ConflictLate(|g.promotions|)
  }

  predicate RolledBack(rollbacks: seq<Rollback>, q: nat) {
    exists r :: 0 <= r < |rollbacks| && rollbacks[r].promotion == q
  }

  /** The promotion exists and has not been rolled back yet. */
  predicate CanRollBack(g: Graph, q: nat) {
    q < |g.promotions| && !(g.promotions[q].status == Disabled && RolledBack(g.rollbacks, q))
  }

  /** The promotion is disabled, its pack perhaps deregistered. */
  function TakenDown(g: Graph, q: nat, a: Answers): Graph
    requires q < |g.promotions|
  {
    g.(running := if a.deregisters then g.running - {g.promotions[q].pack} else g.running,
       promotions := g.promotions[q := g.promotions[q].(status := Disabled)])
  }

  /** And its rollback recorded. */
  function Undone(g: Graph, q: nat, a: Answers): Graph
    requires q < |g.promotions|
  {
    TakenDown(g, q, a).(rollbacks := g.rollbacks + [Rollback(q, a.deregisters)])
  }

  function Disabling(g: Graph, i: nat, a: Answers): (Graph, Outcome)
    requires i < |g.tickets|
  {
    var q := g.tickets[i].target;
    if q >= |g.promotions| then (WithTicket(g, i, Aborted), Vanished)
    else if !CanRollBack(g, q) then (WithTicket(g, i, Done), AlreadyDisabled)
    else
      var h := Undone(g, q, a);
      var p := g.promotions[q].proposal;
      (WithTicket(if p < |g.proposals| then WithProposal(h, p, ProposalDisabled) else h, i, Done), DisabledNow)
  }

  function Processed(g: Graph, i: nat, a: Answers): (Graph, Outcome)
    requires i < |g.tickets|
  {
    if g.tickets[i].disables then Disabling(g, i, a) else Adopted(g, i, a)
  }

  // ----- the writes of a ticket, in order

  datatype Write =
    | TicketSet(ticket: nat, closed: TicketStatus)
    | ProposalSet(proposal: nat, status: ProposalStatus)
    | Load(pack: string, bundle: nat)
    | Deregister(name: string)
    | PromotionAdded(made: Promotion)
    | Marked(fork: string)
    | Flip(flipped: nat)
    | Supersede(older: nat, newer: nat)
    | Disable(promotion: nat)
    | RollbackAdded(rollback: Rollback)

  function Restatused(ms: seq<Promotion>, q: nat, s: PromotionStatus): seq<Promotion> {
    if q < |ms| then ms[q := ms[q].(status := s)] else ms
  }

  function Apply(g: Graph, w: Write): Graph {
    match w
    case TicketSet(i, s) => if i < |g.tickets| then WithTicket(g, i, s) else g
    case ProposalSet(p, s) => if p < |g.proposals| then WithProposal(g, p, s) else g
    case Load(pack, p) => g.(running := g.running[pack := p])
    case Deregister(pack) => g.(running := g.running - {pack})
    case PromotionAdded(m) => g.(promotions := g.promotions + [m])
    case Marked(fork) => g.(applied := g.applied + {fork})
    case Flip(q) => g.(promotions := Restatused(g.promotions, q, Active))
    case Supersede(q, by') =>
      if q < |g.promotions|
      then g.(promotions := g.promotions[q := g.promotions[q].(status := Disabled, supersededBy := Some(by'))]) else g
    case Disable(q) => g.(promotions := Restatused(g.promotions, q, Disabled))
    case RollbackAdded(r) => g.(rollbacks := g.rollbacks + [r])
  }

  function ApplyAll(g: Graph, ws: seq<Write>): Graph {
    if ws == [] then g else Apply(ApplyAll(g, ws[..|ws| - 1]), ws[|ws| - 1])
  }

  function AbortWrites(i: nat, p: nat, s: ProposalStatus): seq<Write> { [TicketSet(i, Aborted), ProposalSet(p, s)] }

  function GatedWrites(p: nat, gates: Gates): seq<Write> { [ProposalSet(p, Gated), ProposalSet(p, GateStatus(gates))] }

  function AdoptWrites(g: Graph, i: nat, a: Answers): seq<Write>
    requires i < |g.tickets|
  {
    var p := g.tickets[i].target;
    if p >= |g.proposals| || g.proposals[p].status == NeedsOwner then [TicketSet(i, Aborted)]
    else if a.pin != Verified then AbortWrites(i, p, Suspended)
    else GateWrites(g, i, p, a)
  }

  function GateWrites(g: Graph, i: nat, p: nat, a: Answers): seq<Write>
    requires p < |g.proposals|
  {
    GatedWrites(p, a.gates) +
    if a.gates != Pass then [TicketSet(i, Aborted)] else [ProposalSet(p, Adopting)] + ForkWrites(g, i, p, a)
  }

  function ForkWrites(g: Graph, i: nat, p: nat, a: Answers): seq<Write>
    requires p < |g.proposals|
  {
    if !HasFork(g, p) || !a.forkStored then AbortWrites(i, p, Gated)
    else if !a.promotable then AbortWrites(i, p, InConflict)
    else InstallWrites(g, i, p, a.promotes)
  }

  function LoadWrites(g: Graph, p: nat): seq<Write>
    requires p < |g.proposals| && LatestFork(g.trials, p).Some?
  {
    [Load(g.proposals[p].pack, p), PromotionAdded(Made(g, p))]
  }

  function CommitWrites(g: Graph, i: nat, p: nat): seq<Write>
    requires p < |g.proposals| && LatestFork(g.trials, p).Some?
  {
    [Marked(LatestFork(g.trials, p).value), TicketSet(i, Done)]
  }

  function InstallWrites(g: Graph, i: nat, p: nat, promotes: bool): seq<Write>
    requires p < |g.proposals| && LatestFork(g.trials, p).Some?
  {
    LoadWrites(g, p) +
    if !promotes then AbortWrites(i, p, InConflict) else CommitWrites(g, i, p) + SettleWrites(g, p)
  }

  /** The recorder's writes, and then the supersession of the pack's other active promotions. */
  function SettleWrites(g: Graph, p: nat): seq<Write>
    requires p < |g.proposals| && LatestFork(g.trials, p).Some?
  {
    var ms, fork := g.promotions + [Made(g, p)], LatestFork(g.trials, p).value;
    RecorderWrites(ms, fork, |g.proposals|) +
    SupersedeWrites(Flipped(ms, fork), g.proposals[p].pack, |g.promotions|, |ms|)
  }

  function RecorderWrites(ms: seq<Promotion>, fork: string, count: nat): seq<Write> {
    var q := FirstLoading(ms, fork);
    if fork == "" || q.None? then []
    else [Flip(q.value)] + if ms[q.value].proposal < count then [ProposalSet(ms[q.value].proposal, Promoted)] else []
  }

  function SupersedeWrites(ms: seq<Promotion>, pack: string, by': nat, k: nat): seq<Write>
    requires k <= |ms|
  {
    if k == 0 then []
    else
      SupersedeWrites(ms, pack, by', k - 1) +
      if ToSupersede(ms[k - 1], k - 1, pack, by') then [Supersede(k - 1, by')] else []
  }

  function DisableWrites(g: Graph, i: nat, a: Answers): seq<Write>
    requires i < |g.tickets|
  {
    var q := g.tickets[i].target;
    if q >= |g.promotions| then [TicketSet(i, Aborted)]
    else if !CanRollBack(g, q) then [TicketSet(i, Done)]
    else UndoWrites(g.promotions[q], q, a) + CloseWrites(g, i, q)
  }

  function TakeDownWrites(m: Promotion, q: nat, a: Answers): seq<Write> {
    (if a.deregisters then [Deregister(m.pack)] else []) + [Disable(q)]
  }

  function UndoWrites(m: Promotion, q: nat, a: Answers): seq<Write> {
    TakeDownWrites(m, q, a) + [RollbackAdded(Rollback(q, a.deregisters))]
  }

  function CloseWrites(g: Graph, i: nat, q: nat): seq<Write>
    requires q < |g.promotions|
  {
    var p := g.promotions[q].proposal;
    (if p < |g.proposals| then [ProposalSet(p, ProposalDisabled)] else []) + [TicketSet(i, Done)]
  }

  function Writes(g: Graph, i: nat, a: Answers): seq<Write>
    requires i < |g.tickets|
  {
    if g.tickets[i].disables then DisableWrites(g, i, a) else AdoptWrites(g, i, a)
  }

  /** The graph a process leaves that dies after the first `n` writes of a ticket. */
  function Partial(g: Graph, i: nat, a: Answers, n: nat): Graph
    requires i < |g.tickets|
  {
    var ws := Writes(g, i, a);
    ApplyAll(g, if n <= |ws| then ws[..n] else ws)
  }

  // ----- the writes come to the closed form

  lemma {:induction false} ApplyConcat(g: Graph, ws: seq<Write>, vs: seq<Write>)
    ensures ApplyAll(g, ws + vs) == ApplyAll(ApplyAll(g, ws), vs)
  {
    if vs == [] {
      assert ws + vs == ws;
    } else {
      var init := vs[..|vs| - 1];
      assert (ws + vs)[..|ws + vs| - 1] == ws + init;
      ApplyConcat(g, ws, init);
    }
  }

  lemma ApplyNext(g: Graph, ws: seq<Write>, w: Write)
    ensures ApplyAll(g, ws + [w]) == Apply(ApplyAll(g, ws), w)
  {
    assert (ws + [w])[..|ws|] == ws;
  }

  lemma ApplyOne(g: Graph, w: Write)
    ensures ApplyAll(g, [w]) == Apply(g, w)
  {
    assert [w][..0] == [];
  }

  lemma ApplyTwo(g: Graph, w: Write, v: Write)
    ensures ApplyAll(g, [w, v]) == Apply(Apply(g, w), v)
  {
    assert [w, v][..1] == [w];
    ApplyOne(g, w);
  }

  function SupersededUpTo(ms: seq<Promotion>, pack: string, by': nat, k: nat): seq<Promotion>
    requires k <= |ms|
  {
    seq(|ms|, j requires 0 <= j < |ms| => if j < k then SupersedeOne(ms[j], j, pack, by') else ms[j])
  }

  lemma {:induction false} SupersedeApplied(g: Graph, pack: string, by': nat, k: nat)
    requires k <= |g.promotions|
    ensures ApplyAll(g, SupersedeWrites(g.promotions, pack, by', k)) ==
            g.(promotions := SupersededUpTo(g.promotions, pack, by', k))
  {
    var ms := g.promotions;
    if k == 0 {
      assert SupersededUpTo(ms, pack, by', 0) == ms;
    } else {
      SupersedeApplied(g, pack, by', k - 1);
      SupersededOneMore(ms, pack, by', k);
      var ws := SupersedeWrites(ms, pack, by', k - 1);
      if ToSupersede(ms[k - 1], k - 1, pack, by') {
        ApplyNext(g, ws, Supersede(k - 1, by'));
      } else {
        assert ws + [] == ws;
      }
    }
  }

  lemma SupersededOneMore(ms: seq<Promotion>, pack: string, by': nat, k: nat)
    requires 0 < k <= |ms|
    ensures SupersededUpTo(ms, pack, by', k) ==
            SupersededUpTo(ms, pack, by', k - 1)[k - 1 := SupersedeOne(ms[k - 1], k - 1, pack, by')]
  {
  }

  lemma RecorderApplied(g: Graph, fork: string)
    ensures ApplyAll(g, RecorderWrites(g.promotions, fork, |g.proposals|)) == Recorded(g, fork)
  {
    var q := FirstLoading(g.promotions, fork);
    if fork != "" && q.Some? {
      var p := g.promotions[q.value].proposal;
      ApplyOne(g, Flip(q.value));
      if p < |g.proposals| {
        ApplyNext(g, [Flip(q.value)], ProposalSet(p, Promoted));
      } else {
        assert [Flip(q.value)] + [] == [Flip(q.value)];
      }
    }
  }

  lemma SettleApplied(g: Graph, i: nat, p: nat)
    requires i < |g.tickets| && p < |g.proposals| && LatestFork(g.trials, p).Some?
    ensures ApplyAll(Applied(g, i, p), SettleWrites(g, p)) == Settled(g, i, p)
  {
    var h, fork := Applied(g, i, p), LatestFork(g.trials, p).value;
    var r, pack, n := Recorded(h, fork), g.proposals[p].pack, |g.promotions|;
    RecorderApplied(h, fork);
    assert r.promotions == Flipped(h.promotions, fork);
    ApplyConcat(h, RecorderWrites(h.promotions, fork, |h.proposals|), SupersedeWrites(r.promotions, pack, n, n + 1));
    SupersedeApplied(r, pack, n, n + 1);
    assert SupersededUpTo(r.promotions, pack, n, n + 1) == Superseded(r.promotions, pack, n);
  }

  lemma LoadApplied(g: Graph, p: nat, rest: seq<Write>)
    requires p < |g.proposals| && LatestFork(g.trials, p).Some?
    ensures ApplyAll(WithProposal(g, p, Adopting), LoadWrites(g, p) + rest) ==
            ApplyAll(WithProposal(Loaded(g, p), p, Adopting), rest)
  {
    var h := WithProposal(g, p, Adopting);
    ApplyTwo(h, LoadWrites(g, p)[0], LoadWrites(g, p)[1]);
    assert ApplyAll(h, LoadWrites(g, p)) == WithProposal(Loaded(g, p), p, Adopting);
    ApplyConcat(h, LoadWrites(g, p), rest);
  }

  lemma CommitApplied(g: Graph, i: nat, p: nat, rest: seq<Write>)
    requires i < |g.tickets| && p < |g.proposals| && LatestFork(g.trials, p).Some?
    ensures ApplyAll(WithProposal(g, p, Adopting), LoadWrites(g, p) + (CommitWrites(g, i, p) + rest)) ==
            ApplyAll(Applied(g, i, p), rest)
  {
    var l := WithProposal(Loaded(g, p), p, Adopting);
    LoadApplied(g, p, CommitWrites(g, i, p) + rest);
    ApplyConcat(l, CommitWrites(g, i, p), rest);
    ApplyTwo(l, CommitWrites(g, i, p)[0], CommitWrites(g, i, p)[1]);
  }

  lemma InstallApplied(g: Graph, i: nat, p: nat, promotes: bool)
    requires i < |g.tickets| && p < |g.proposals| && LatestFork(g.trials, p).Some?
    ensures ApplyAll(WithProposal(g, p, Adopting), InstallWrites(g, i, p, promotes)) ==
            if promotes then Settled(g, i, p) else WithProposal(WithTicket(Loaded(g, p), i, Aborted), p, InConflict)
  {
    if promotes {
      CommitApplied(g, i, p, SettleWrites(g, p));
      SettleApplied(g, i, p);
    } else {
      LoadApplied(g, p, AbortWrites(i, p, InConflict));
      ApplyTwo(WithProposal(Loaded(g, p), p, Adopting), TicketSet(i, Aborted), ProposalSet(p, InConflict));
    }
  }

  lemma AbortApplied(g: Graph, i: nat, p: nat, s: ProposalStatus)
    requires i < |g.tickets| && p < |g.proposals|
    ensures ApplyAll(WithProposal(g, p, Adopting), AbortWrites(i, p, s)) ==
            WithProposal(WithTicket(g, i, Aborted), p, s)
  {
    ApplyTwo(WithProposal(g, p, Adopting), TicketSet(i, Aborted), ProposalSet(p, s));
  }

  lemma ForkApplied(g: Graph, i: nat, p: nat, a: Answers)
    requires i < |g.tickets| && g.tickets[i].target == p < |g.proposals|
    requires g.proposals[p].status != NeedsOwner && a.pin == Verified && a.gates == Pass
    ensures ApplyAll(WithProposal(g, p, Adopting), ForkWrites(g, i, p, a)) == Adopted(g, i, a).0
  {
    if Refusal(g, p, a).Some? {
      AbortApplied(g, i, p, Verdict(Refusal(g, p, a).value, a).value);
    } else {
      InstallApplied(g, i, p, a.promotes);
    }
  }

  lemma GatedApplied(g: Graph, p: nat, gates: Gates, rest: seq<Write>)
    requires p < |g.proposals|
    ensures ApplyAll(g, GatedWrites(p, gates) + rest) == ApplyAll(WithProposal(g, p, GateStatus(gates)), rest)
  {
    ApplyConcat(g, GatedWrites(p, gates), rest);
    ApplyTwo(g, ProposalSet(p, Gated), ProposalSet(p, GateStatus(gates)));
    assert ApplyAll(g, GatedWrites(p, gates)) == WithProposal(g, p, GateStatus(gates));
  }

  lemma StopApplied(g: Graph, i: nat, p: nat, a: Answers)
    requires i < |g.tickets| && g.tickets[i].target == p
    requires p < |g.proposals| ==> g.proposals[p].status == NeedsOwner
    ensures ApplyAll(g, AdoptWrites(g, i, a)) == Adopted(g, i, a).0
  {
    ApplyOne(g, TicketSet(i, Aborted));
  }

  lemma PinApplied(g: Graph, i: nat, p: nat, a: Answers)
    requires i < |g.tickets| && g.tickets[i].target == p < |g.proposals|
    requires g.proposals[p].status != NeedsOwner && a.pin != Verified
    ensures ApplyAll(g, AdoptWrites(g, i, a)) == Adopted(g, i, a).0
  {
    assert Verdict(Refusal(g, p, a).value, a) == Some(Suspended);
    ApplyTwo(g, TicketSet(i, Aborted), ProposalSet(p, Suspended));
  }

  lemma GatesApplied(g: Graph, i: nat, p: nat, a: Answers)
    requires i < |g.tickets| && g.tickets[i].target == p < |g.proposals|
    requires g.proposals[p].status != NeedsOwner && a.pin == Verified && a.gates != Pass
    ensures ApplyAll(g, GatedWrites(p, a.gates) + [TicketSet(i, Aborted)]) == Adopted(g, i, a).0
  {
    assert Verdict(Refusal(g, p, a).value, a) == Some(GateStatus(a.gates));
    GatedApplied(g, p, a.gates, [TicketSet(i, Aborted)]);
    ApplyOne(WithProposal(g, p, GateStatus(a.gates)), TicketSet(i, Aborted));
  }

  lemma PassedApplied(g: Graph, i: nat, p: nat, a: Answers)
    requires i < |g.tickets| && g.tickets[i].target == p < |g.proposals|
    requires g.proposals[p].status != NeedsOwner && a.pin == Verified && a.gates == Pass
    ensures ApplyAll(g, GatedWrites(p, a.gates) + ([ProposalSet(p, Adopting)] + ForkWrites(g, i, p, a))) ==
            Adopted(g, i, a).0
  {
    var rest := ForkWrites(g, i, p, a);
    GatedApplied(g, p, Pass, [ProposalSet(p, Adopting)] + rest);
    AdoptingApplied(g, p, rest);
    ForkApplied(g, i, p, a);
  }

  /** All the writes of a successful adopt ticket but the supersessions. */
  function PromotionWrites(g: Graph, i: nat, p: nat): seq<Write>
    requires p < |g.proposals| && LatestFork(g.trials, p).Some?
  {
    GatedWrites(p, Pass) + ([ProposalSet(p, Adopting)] + (LoadWrites(g, p) + (CommitWrites(g, i, p) +
      RecorderWrites(g.promotions + [Made(g, p)], Made(g, p).fork, |g.proposals|))))
  }

  lemma PromotionApplied(g: Graph, i: nat, p: nat)
    requires i < |g.tickets| && p < |g.proposals| && LatestFork(g.trials, p).Some?
    ensures ApplyAll(g, PromotionWrites(g, i, p)) == Recorded(Applied(g, i, p), Made(g, p).fork)
  {
    var recorder := RecorderWrites(g.promotions + [Made(g, p)], Made(g, p).fork, |g.proposals|);
    GatedApplied(g, p, Pass, [ProposalSet(p, Adopting)] + (LoadWrites(g, p) + (CommitWrites(g, i, p) + recorder)));
    AdoptingApplied(g, p, LoadWrites(g, p) + (CommitWrites(g, i, p) + recorder));
    CommitApplied(g, i, p, recorder);
    RecorderApplied(Applied(g, i, p), Made(g, p).fork);
  }

  lemma SupersessionsLast(g: Graph, i: nat, a: Answers)
    requires i < |g.tickets| && Refusal(g, g.tickets[i].target, a).None? && a.promotes
    ensures var p := g.tickets[i].target;
            var ms := Flipped(g.promotions + [Made(g, p)], Made(g, p).fork);
            AdoptWrites(g, i, a) ==
            PromotionWrites(g, i, p) + SupersedeWrites(ms, Made(g, p).pack, |g.promotions|, |ms|)
  {
    assert ForkWrites(g, i, g.tickets[i].target, a) == InstallWrites(g, i, g.tickets[i].target, true);
  }

  lemma AdoptedByWrites(g: Graph, i: nat, a: Answers)
    requires i < |g.tickets| && !g.tickets[i].disables
    ensures ApplyAll(g, AdoptWrites(g, i, a)) == Adopted(g, i, a).0
  {
    var p := g.tickets[i].target;
    if p >= |g.proposals| || g.proposals[p].status == NeedsOwner {
      StopApplied(g, i, p, a);
    } else if a.pin != Verified {
      PinApplied(g, i, p, a);
    } else if a.gates != Pass {
      GatesApplied(g, i, p, a);
    } else {
      PassedApplied(g, i, p, a);
    }
  }

  lemma AdoptingApplied(g: Graph, p: nat, rest: seq<Write>)
    requires p < |g.proposals|
    ensures ApplyAll(WithProposal(g, p, Gated), [ProposalSet(p, Adopting)] + rest) ==
            ApplyAll(WithProposal(g, p, Adopting), rest)
  {
    var h := WithProposal(g, p, Gated);
    ApplyConcat(h, [ProposalSet(p, Adopting)], rest);
    ApplyOne(h, ProposalSet(p, Adopting));
    assert WithProposal(h, p, Adopting) == WithProposal(g, p, Adopting);
  }

  lemma DisablingByWrites(g: Graph, i: nat, a: Answers)
    requires i < |g.tickets|
    ensures ApplyAll(g, DisableWrites(g, i, a)) == Disabling(g, i, a).0
  {
    var q := g.tickets[i].target;
    if q >= |g.promotions| {
      ApplyOne(g, TicketSet(i, Aborted));
    } else if !CanRollBack(g, q) {
      ApplyOne(g, TicketSet(i, Done));
    } else {
      UndoApplied(g, q, a);
      ApplyConcat(g, UndoWrites(g.promotions[q], q, a), CloseWrites(g, i, q));
      CloseApplied(Undone(g, q, a), i, q);
    }
  }

  lemma TakeDownApplied(g: Graph, q: nat, a: Answers)
    requires q < |g.promotions|
    ensures ApplyAll(g, TakeDownWrites(g.promotions[q], q, a)) == TakenDown(g, q, a)
  {
    var pack := g.promotions[q].pack;
    if a.deregisters {
      var h := g.(running := g.running - {pack});
      assert Apply(g, Deregister(pack)) == h;
      ApplyOne(g, Deregister(pack));
      ApplyNext(g, [Deregister(pack)], Disable(q));
    } else {
      ApplyOne(g, Disable(q));
      assert [] + [Disable(q)] == [Disable(q)];
    }
  }

  lemma UndoApplied(g: Graph, q: nat, a: Answers)
    requires q < |g.promotions|
    ensures ApplyAll(g, UndoWrites(g.promotions[q], q, a)) == Undone(g, q, a)
  {
    TakeDownApplied(g, q, a);
    ApplyNext(g, TakeDownWrites(g.promotions[q], q, a), RollbackAdded(Rollback(q, a.deregisters)));
  }

  lemma CloseApplied(g: Graph, i: nat, q: nat)
    requires i < |g.tickets| && q < |g.promotions|
    ensures var p := g.promotions[q].proposal;
            ApplyAll(g, CloseWrites(g, i, q)) ==
            WithTicket(if p < |g.proposals| then WithProposal(g, p, ProposalDisabled) else g, i, Done)
  {
    var p := g.promotions[q].proposal;
    if p < |g.proposals| {
      ApplyTwo(g, ProposalSet(p, ProposalDisabled), TicketSet(i, Done));
    } else {
      ApplyOne(g, TicketSet(i, Done));
      assert [] + [TicketSet(i, Done)] == [TicketSet(i, Done)];
    }
  }

  /** A ticket whose process lives writes its closed form. */
  lemma ProcessedByWrites(g: Graph, i: nat, a: Answers)
    requires i < |g.tickets|
    ensures ApplyAll(g, Writes(g, i, a)) == Processed(g, i, a).0
  {
    if g.tickets[i].disables { DisablingByWrites(g, i, a); } else { AdoptedByWrites(g, i, a); }
  }
}
