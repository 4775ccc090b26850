/** Runs of the adoption processor: requests, trials, sweeps, restarts, and processes that die inside
    a ticket, a request or a boot (packs/evolution/adopt.py and boot.py). */
module AdoptionRuns {
  import opened Prelude
  import opened Adoption
  import opened AdoptionSafety
  import opened AdoptionBoot
  import opened AdoptionDeaths

  function OpenTickets(tickets: seq<Ticket>, n: nat): (r: seq<nat>)
    requires n <= |tickets|
    ensures forall k :: 0 <= k < |r| ==> r[k] < n
    ensures forall k :: k in r <==> 0 <= k < n && tickets[k].status == Open
    ensures Distinct(r)
  {
    if n == 0 then [] else OpenTickets(tickets, n - 1) + if tickets[n - 1].status == Open then [n - 1] else []
  }

  /** The first `k` of the listed tickets, each with its own answers. */
  function SweptUpTo(g: Graph, todo: seq<nat>, answers: seq<Answers>, k: nat): (h: Graph)
    requires k <= |todo| == |answers| && forall j :: 0 <= j < |todo| ==> todo[j] < |g.tickets|
    ensures |h.tickets| == |g.tickets|
  {
    if k == 0 then g
    else
      var h := SweptUpTo(g, todo, answers, k - 1);
      TicketClosed(h, todo[k - 1], answers[k - 1]);
      Processed(h, todo[k - 1], answers[k - 1]).0
  }

  function Swept(g: Graph, answers: seq<Answers>): Graph {
    var todo := OpenTickets(g.tickets, |g.tickets|);
    if |answers| != |todo| then g else SweptUpTo(g, todo, answers, |todo|)
  }

  /** A sweep whose process dies after `n` writes of the last ticket it was given answers for. */
  function SweepDied(g: Graph, answers: seq<Answers>, n: nat, intact: set<string>): Graph {
    var todo, k := OpenTickets(g.tickets, |g.tickets|), |answers| - 1;
    if 0 < |answers| <= |todo| then
      Died(SweptUpTo(g, todo[..k], answers[..k], k), todo[k], answers[k], n, intact)
    else Rebooted(g, intact)
  }

  datatype Action =
    | Propose(pack: string)
    | Restatus(proposal: nat, status: ProposalStatus)
    | Try(trial: Trial)
    | RequestAdopt(proposal: nat)
    | RequestDisable(promotion: nat)
    | Sweep(answers: seq<Answers>)
    | Boot(intact: set<string>)
    | DieSweeping(given: seq<Answers>, writes: nat, intact: set<string>)
    | DieRequesting(requested: nat, intact: set<string>)
    | DieBooting(written: seq<Write>, intact: set<string>)

  /** Trials get fork run ids of their own. */
  predicate FreshFork(g: Graph, t: Trial) {
    t.fork == "" || forall s :: 0 <= s < |g.trials| ==> g.trials[s].fork != t.fork
  }

  predicate MayAdopt(g: Graph, p: nat) { p < |g.proposals| && g.proposals[p].status in {Trialed, PendingApproval} }

  /** What a boot may write to the graph: heal, park or disable, supersede, close a ticket. */
  predicate BootWrite(g: Graph, w: Write) {
    match w
    case Flip(q) => q < |g.promotions| && g.promotions[q].status == Loading && g.promotions[q].fork in g.applied
    case Disable(q) => q < |g.promotions|
    case Supersede(q, r) => q < r < |g.promotions| && g.promotions[q].pack == g.promotions[r].pack
    case TicketSet(i, s) => i < |g.tickets| && !g.tickets[i].disables && s == Done
    case _ => false
  }

  /** A boot that dies has made some of its writes; the next one starts from there. */
  function BootDied(g: Graph, ws: seq<Write>, intact: set<string>): Graph {
    if forall k :: 0 <= k < |ws| ==> BootWrite(g, ws[k]) then Rebooted(ApplyAll(g, ws), intact) else Rebooted(g, intact)
  }

  function WithRequest(g: Graph, t: Ticket): Graph { g.(tickets := g.tickets + [t]) }

  /** The executor of an adopt request makes two writes; its process dies between them. */
  function RequestDied(g: Graph, p: nat, intact: set<string>): Graph {
    Rebooted(if MayAdopt(g, p) then WithRequest(g, Ticket(false, p, Open)) else g, intact)
  }

  function Act(g: Graph, action: Action): Graph {
    match action
    case Propose(pack) => g.(proposals := g.proposals + [Proposal(pack, Drafted)])
    case Restatus(p, s) => if p < |g.proposals| then WithProposal(g, p, s) else g
    case Try(t) => if FreshFork(g, t) then g.(trials := g.trials + [t]) else g
    case RequestAdopt(p) =>
      if MayAdopt(g, p) then WithProposal(WithRequest(g, Ticket(false, p, Open)), p, Adopting) else g
    case RequestDisable(q) => if q < |g.promotions| then WithRequest(g, Ticket(true, q, Open)) else g
    case Sweep(answers) => Swept(g, answers)
    case Boot(intact) => Rebooted(g, intact)
    case DieSweeping(answers, n, intact) => SweepDied(g, answers, n, intact)
    case DieRequesting(p, intact) => RequestDied(g, p, intact)
    case DieBooting(ws, intact) => BootDied(g, ws, intact)
  }

  function After(run: seq<Action>): Graph {
    if run == [] then EMPTY else Act(After(run[..|run| - 1]), run[|run| - 1])
  }

  lemma {:induction false} SweptSafe(g: Graph, todo: seq<nat>, answers: seq<Answers>, k: nat)
    requires Safe(g) && k <= |todo| == |answers| && forall j :: 0 <= j < |todo| ==> todo[j] < |g.tickets|
    ensures Safe(SweptUpTo(g, todo, answers, k)) && Evolves(g, SweptUpTo(g, todo, answers, k))
  {
    if k == 0 {
    } else {
      SweptSafe(g, todo, answers, k - 1);
      var m := SweptUpTo(g, todo, answers, k - 1);
      ProcessedSafe(m, todo[k - 1], answers[k - 1]);
      EvolvesOn(g, m, Processed(m, todo[k - 1], answers[k - 1]).0);
    }
  }

  /** Every ticket open when a sweep starts ends done or aborted; the others do not move. */
  lemma {:induction false} SweepSettles(g: Graph, todo: seq<nat>, answers: seq<Answers>, k: nat, i: nat)
    requires k <= |todo| == |answers| && (forall j :: 0 <= j < |todo| ==> todo[j] < |g.tickets|) && Distinct(todo) &&
             i < |g.tickets|
    ensures var h := SweptUpTo(g, todo, answers, k);
            if i in todo[..k] then h.tickets[i].status != Open else h.tickets[i] == g.tickets[i]
  {
    if k == 0 {
    } else {
      assert todo[..k] == todo[..k - 1] + [todo[k - 1]];
      SweepSettles(g, todo, answers, k - 1, i);
      var h := SweptUpTo(g, todo, answers, k - 1);
      TicketClosed(h, todo[k - 1], answers[k - 1]);
      assert i in todo[..k] <==> i in todo[..k - 1] || i == todo[k - 1];
    }
  }

  /** What a sweep keeps, and the start of a new process however the old one ended. */
  ghost predicate Keeps(g: Graph, h: Graph) { Safe(h) && Evolves(g, h) }

  lemma BootKeeps(g: Graph, intact: set<string>)
    requires Safe(g)
    ensures Keeps(g, Rebooted(g, intact))
  {
    BootSafe(g, intact);
  }

  lemma SweepKeeps(g: Graph, answers: seq<Answers>)
    requires Safe(g)
    ensures Keeps(g, Swept(g, answers))
  {
    var todo := OpenTickets(g.tickets, |g.tickets|);
    if |answers| == |todo| { SweptSafe(g, todo, answers, |todo|); }
  }

  lemma SweepDiedKeeps(g: Graph, answers: seq<Answers>, n: nat, intact: set<string>)
    requires Safe(g)
    ensures Keeps(g, SweepDied(g, answers, n, intact))
  {
    var todo, k := OpenTickets(g.tickets, |g.tickets|), |answers| - 1;
    if 0 < |answers| <= |todo| {
      SweptSafe(g, todo[..k], answers[..k], k);
      assert SweepDied(g, answers, n, intact) ==
             Died(SweptUpTo(g, todo[..k], answers[..k], k), todo[k], answers[k], n, intact);
      DiedLater(g, SweptUpTo(g, todo[..k], answers[..k], k), todo[k], answers[k], n, intact);
    } else {
      assert SweepDied(g, answers, n, intact) == Rebooted(g, intact);
      BootKeeps(g, intact);
    }
  }

  lemma DiedLater(g: Graph, m: Graph, i: nat, a: Answers, n: nat, intact: set<string>)
    requires Safe(m) && Evolves(g, m) && i < |m.tickets|
    ensures Keeps(g, Died(m, i, a, n, intact))
  {
    DiedSafe(m, i, a, n, intact);
    EvolvesOn(g, m, Died(m, i, a, n, intact));
  }

  lemma BootDiedKeeps(g: Graph, ws: seq<Write>, intact: set<string>)
    requires Safe(g)
    ensures Keeps(g, BootDied(g, ws, intact))
  {
    BootSafe(g, intact);
    if forall k :: 0 <= k < |ws| ==> BootWrite(g, ws[k]) {
      var h := ApplyAll(g, ws);
      assert AllHarmless(g, ws);
      HarmlessGrows(g, ws);
      GrowsSound(g, h);
      BootSafe(h, intact);
      EvolvesOn(g, h, Rebooted(h, intact));
    }
  }

  lemma ProposeSafe(g: Graph, pack: string)
    requires Safe(g)
    ensures Safe(Act(g, Propose(pack)))
  {
    var h := Act(g, Propose(pack));
    forall q | 0 <= q < |h.promotions| ensures FromTrial(h, h.promotions[q]) { assert FromTrial(g, g.promotions[q]); }
    SameRest(g, h);
  }

  lemma TrySafe(g: Graph, t: Trial)
    requires Safe(g)
    ensures Safe(Act(g, Try(t)))
  {
    var h := Act(g, Try(t));
    if h != g {
      forall q | 0 <= q < |h.promotions| ensures FromTrial(h, h.promotions[q]) {
        assert FromTrial(g, g.promotions[q]);
        var s :| 0 <= s < |g.trials| && g.trials[s].proposal == g.promotions[q].proposal &&
            g.trials[s].fork == g.promotions[q].fork;
        assert h.trials[s] == g.trials[s];
      }
    }
    SameRest(g, h);
  }

  /** Tickets and proposal statuses are free. */
  lemma OthersSafe(g: Graph, h: Graph)
    requires Safe(g) && Evolves(g, h) && h.promotions == g.promotions && h.rollbacks == g.rollbacks
    ensures Safe(h)
  {
    ForksKept(g, h);
    SameRest(g, h);
  }

  lemma RequestDiedKeeps(g: Graph, p: nat, intact: set<string>)
    requires Safe(g)
    ensures Keeps(g, RequestDied(g, p, intact))
  {
    var h := if MayAdopt(g, p) then WithRequest(g, Ticket(false, p, Open)) else g;
    OthersSafe(g, h);
    BootSafe(h, intact);
    EvolvesOn(g, h, Rebooted(h, intact));
  }

  lemma EditSafe(g: Graph, action: Action)
    requires Safe(g) && (action.Restatus? || action.RequestAdopt? || action.RequestDisable?)
    ensures Safe(Act(g, action))
  {
    OthersSafe(g, Act(g, action));
  }

  lemma SweepStep(g: Graph, answers: seq<Answers>)
    requires Safe(g)
    ensures Keeps(g, Act(g, Sweep(answers)))
  {
    assert Act(g, Sweep(answers)) == Swept(g, answers);
    SweepKeeps(g, answers);
  }

  lemma BootStep(g: Graph, intact: set<string>)
    requires Safe(g)
    ensures Keeps(g, Act(g, Boot(intact)))
  {
    assert Act(g, Boot(intact)) == Rebooted(g, intact);
    BootKeeps(g, intact);
  }

  lemma DieSweepingStep(g: Graph, answers: seq<Answers>, n: nat, intact: set<string>)
    requires Safe(g)
    ensures Keeps(g, Act(g, DieSweeping(answers, n, intact)))
  {
    assert Act(g, DieSweeping(answers, n, intact)) == SweepDied(g, answers, n, intact);
    SweepDiedKeeps(g, answers, n, intact);
  }

  lemma DieRequestingStep(g: Graph, p: nat, intact: set<string>)
    requires Safe(g)
    ensures Keeps(g, Act(g, DieRequesting(p, intact)))
  {
    assert Act(g, DieRequesting(p, intact)) == RequestDied(g, p, intact);
    RequestDiedKeeps(g, p, intact);
  }

  lemma DieBootingStep(g: Graph, ws: seq<Write>, intact: set<string>)
    requires Safe(g)
    ensures Keeps(g, Act(g, DieBooting(ws, intact)))
  {
    assert Act(g, DieBooting(ws, intact)) == BootDied(g, ws, intact);
    BootDiedKeeps(g, ws, intact);
  }

  lemma ActSafe(g: Graph, action: Action)
    requires Safe(g)
    ensures Safe(Act(g, action))
  {
    match action
    case Propose(pack) => ProposeSafe(g, pack);
    case Try(t) => TrySafe(g, t);
    case Sweep(answers) => SweepStep(g, answers);
    case Boot(intact) => BootStep(g, intact);
    case DieSweeping(answers, n, intact) => DieSweepingStep(g, answers, n, intact);
    case DieRequesting(p, intact) => DieRequestingStep(g, p, intact);
    case DieBooting(ws, intact) => DieBootingStep(g, ws, intact);
    case _ => EditSafe(g, action);
  }

  lemma SameRest(g: Graph, h: Graph)
    requires OneActive(g) && Rollbacks(g) && h.promotions == g.promotions && h.rollbacks == g.rollbacks
    ensures OneActive(h) && Rollbacks(h)
  {
    assert forall q: nat :: IsActive(h, q) <==> IsActive(g, q);
  }

  /** Over every run: one active promotion a pack name, one rollback a promotion, wherever
      processes died. */
  lemma {:induction false} RunSafe(run: seq<Action>)
    ensures Safe(After(run))
  {
    if run == [] {
      assert forall q: nat :: !IsActive(EMPTY, q);
    } else {
      RunSafe(run[..|run| - 1]);
      ActSafe(After(run[..|run| - 1]), run[|run| - 1]);
    }
  }

  lemma ActKeepsDisabled(g: Graph, action: Action, q: nat)
    requires Safe(g) && q < |g.promotions| && g.promotions[q].status == Disabled
    ensures q < |Act(g, action).promotions| && Act(g, action).promotions[q].status == Disabled
  {
    match action
    case Sweep(answers) => SweepStep(g, answers);
    case Boot(intact) => BootStep(g, intact);
    case DieSweeping(answers, n, intact) => DieSweepingStep(g, answers, n, intact);
    case DieRequesting(p, intact) => DieRequestingStep(g, p, intact);
    case DieBooting(ws, intact) => DieBootingStep(g, ws, intact);
    case _ =>
  }

  /** A disabled promotion, rolled back or superseded, is never active again. */
  lemma {:induction false} DisabledForGood(before: seq<Action>, since: seq<Action>, q: nat)
    requires q < |After(before).promotions| && After(before).promotions[q].status == Disabled
    ensures q < |After(before + since).promotions| && After(before + since).promotions[q].status == Disabled
    decreases |since|
  {
    if since == [] {
      assert before + since == before;
    } else {
      var init := since[..|since| - 1];
      assert (before + since)[..|before + since| - 1] == before + init;
      DisabledForGood(before, init, q);
      RunSafe(before + init);
      ActKeepsDisabled(After(before + init), since[|since| - 1], q);
    }
  }
}
