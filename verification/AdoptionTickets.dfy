/** What a ticket needs and what it leaves, in terms of the graph and the runtime's answers
    (packs/evolution/adopt.py). */
module AdoptionTickets {
  import opened Prelude
  import opened Adoption
  import opened AdoptionSafety
  import opened AdoptionBoot
  import opened AdoptionDeaths
  import opened AdoptionRuns

  /** Trial `t` is the proposal's latest passing one. */
  ghost predicate LatestPassing(trials: seq<Trial>, p: nat, t: nat) {
    && t < |trials| && trials[t].proposal == p && trials[t].passed
    && forall s :: t < s < |trials| && trials[s].proposal == p ==> !trials[s].passed
  }

  lemma {:induction false} LatestForkIff(trials: seq<Trial>, p: nat, fork: string)
    ensures LatestFork(trials, p) == Some(fork) <==>
            exists t: nat :: LatestPassing(trials, p, t) && trials[t].fork == fork
  {
    if trials == [] {
    } else {
      var init, n := trials[..|trials| - 1], |trials| - 1;
      LatestForkIff(init, p, fork);
      if trials[n].proposal == p && trials[n].passed {
        assert LatestPassing(trials, p, n);
      } else {
        forall t: nat ensures LatestPassing(trials, p, t) <==> LatestPassing(init, p, t) && init[t] == trials[t] {
          if LatestPassing(init, p, t) {
            forall s | t < s < |trials| && trials[s].proposal == p ensures !trials[s].passed {
              if s < n { assert init[s] == trials[s]; }
            }
          }
          if LatestPassing(trials, p, t) { assert forall s :: 0 <= s < n ==> init[s] == trials[s]; }
        }
      }
    }
  }

  /** The latest passing trial names a fork. */
  ghost predicate ForkNamed(trials: seq<Trial>, p: nat) {
    exists t: nat :: LatestPassing(trials, p, t) && trials[t].fork != ""
  }

  lemma HasForkIff(g: Graph, p: nat)
    ensures HasFork(g, p) <==> ForkNamed(g.trials, p)
  {
    if HasFork(g, p) { LatestForkIff(g.trials, p, LatestFork(g.trials, p).value); }
    if t: nat :| LatestPassing(g.trials, p, t) && g.trials[t].fork != "" {
      LatestForkIff(g.trials, p, g.trials[t].fork);
    }
  }

  /** The runtime's answers let a ticket through up to the load. */
  predicate Cleared(a: Answers) { a.pin == Verified && a.gates == Pass && a.forkStored && a.promotable }

  /** Open to adoption: the proposal is there and does not wait for its owner. */
  predicate Adoptable(g: Graph, p: nat) { p < |g.proposals| && g.proposals[p].status != NeedsOwner }

  /** Only the ticket and the proposal's status have moved. */
  predicate Untaken(g: Graph, h: Graph) {
    h.promotions == g.promotions && h.running == g.running && h.applied == g.applied && h.rollbacks == g.rollbacks
  }

  /** A pack is loaded and a promotion recorded if and only if the proposal is open to adoption, the
      bundle has the reviewed hash, the gates pass, the latest passing trial names a fork that is still
      stored, and the promote is free of conflicts. */
  lemma LoadsIff(g: Graph, i: nat, a: Answers)
    requires i < |g.tickets| && !g.tickets[i].disables
    ensures var p, h := g.tickets[i].target, Adopted(g, i, a).0;
            && (|h.promotions| > |g.promotions| <==> Adoptable(g, p) && Cleared(a) && ForkNamed(g.trials, p))
            && (|h.promotions| <= |g.promotions| ==> Untaken(g, h) && h.tickets[i].status == Aborted)
  {
    HasForkIff(g, g.tickets[i].target);
  }

  /** What is loaded and recorded: the proposal's bundle, under its pack name, for that trial's fork. */
  lemma LoadedIsProposals(g: Graph, i: nat, a: Answers, t: nat)
    requires i < |g.tickets| && !g.tickets[i].disables
    requires |Adopted(g, i, a).0.promotions| > |g.promotions| && LatestPassing(g.trials, g.tickets[i].target, t)
    ensures var p, n, h := g.tickets[i].target, |g.promotions|, Adopted(g, i, a).0;
            && |h.promotions| == n + 1 && h.promotions[n].proposal == p && h.promotions[n].pack == g.proposals[p].pack
            && h.promotions[n].fork == g.trials[t].fork && h.promotions[n].status != Disabled
            && h.running == g.running[g.proposals[p].pack := p] && h.rollbacks == g.rollbacks
  {
    LatestForkIff(g.trials, g.tickets[i].target, g.trials[t].fork);
    FlippedAppend(g.promotions, Made(g, g.tickets[i].target));
  }

  /** After the load: with the promote the marker is in the log and the ticket is done; without it the
      promotion is left loading, the ticket aborted and the proposal in conflict. */
  lemma PromoteDecides(g: Graph, i: nat, a: Answers, t: nat)
    requires i < |g.tickets| && !g.tickets[i].disables
    requires |Adopted(g, i, a).0.promotions| > |g.promotions| && LatestPassing(g.trials, g.tickets[i].target, t)
    ensures var p, n, h := g.tickets[i].target, |g.promotions|, Adopted(g, i, a).0;
            if a.promotes then h.applied == g.applied + {g.trials[t].fork} && h.tickets[i].status == Done
            else h.applied == g.applied && h.tickets[i].status == Aborted && h.proposals[p].status == InConflict &&
                 h.promotions[..n] == g.promotions && h.promotions[n].status == Loading
  {
    LatestForkIff(g.trials, g.tickets[i].target, g.trials[t].fork);
  }

  /** The status a ticket that loads nothing leaves on its proposal: a failed pin suspends it, failed
      gates reject or suspend it, a missing fork sends it back to gated, a conflict marks it. */
  lemma AbortStatus(g: Graph, i: nat, a: Answers)
    requires i < |g.tickets| && !g.tickets[i].disables && Adoptable(g, g.tickets[i].target)
    requires |Adopted(g, i, a).0.promotions| == |g.promotions|
    ensures var p := g.tickets[i].target;
            var s := Adopted(g, i, a).0.proposals[p].status;
            && (a.pin != Verified ==> s == Suspended)
            && (a.pin == Verified && a.gates != Pass ==> s == if a.gates == Suspend then Suspended else Rejected)
            && (a.pin == Verified && a.gates == Pass && !(ForkNamed(g.trials, p) && a.forkStored) ==> s == Gated)
            && (a.pin == Verified && a.gates == Pass && ForkNamed(g.trials, p) && a.forkStored ==> s == InConflict)
  {
    HasForkIff(g, g.tickets[i].target);
  }

  /** A bundle that fails its pin is never taken: the ticket aborts, the proposal is suspended. */
  lemma PinHolds(g: Graph, i: nat, a: Answers)
    requires i < |g.tickets| && !g.tickets[i].disables && a.pin != Verified
    ensures var p, h := g.tickets[i].target, Adopted(g, i, a).0;
            && Untaken(g, h) && h.tickets[i].status == Aborted
            && (Adoptable(g, p) ==> h.proposals[p].status == Suspended)
            && (!Adoptable(g, p) ==> h.proposals == g.proposals)
  {
    LoadsIff(g, i, a);
    if Adoptable(g, g.tickets[i].target) { AbortStatus(g, i, a); }
  }

  /** What an adopt ticket answers: the first of the failures in the order of the checks, else whether
      the promote went through. */
  lemma OutcomeTells(g: Graph, i: nat, a: Answers)
    requires i < |g.tickets| && !g.tickets[i].disables
    ensures var p, n := g.tickets[i].target, |g.promotions|;
            var (h, o), gated, forked := Adopted(g, i, a), a.pin == Verified && a.gates == Pass,
              ForkNamed(g.trials, g.tickets[i].target) && a.forkStored;
            && (o == Vanished <==> p >= |g.proposals|)
            && (o == OwnerOnly <==> p < |g.proposals| && g.proposals[p].status == NeedsOwner)
            && (Adoptable(g, p) ==>
                  && (o == HashMismatch <==> a.pin == Mismatch) && (o == MaterializeError <==> a.pin == Broken)
                  && (o == GatesFailed <==> a.pin == Verified && a.gates != Pass)
                  && (o == RetrialRequired <==> gated && !forked)
                  && (o == Conflict <==> gated && forked && !a.promotable))
            && (|h.promotions| > n ==> o == if a.promotes then PromotedAs(n) else ConflictLate(n))
  {
    HasForkIff(g, g.tickets[i].target);
  }

  // ----- disable tickets

  ghost predicate HasRollback(g: Graph, q: nat) { exists r :: r in g.rollbacks && r.promotion == q }

  lemma RolledBackIff(g: Graph, q: nat)
    ensures RolledBack(g.rollbacks, q) <==> HasRollback(g, q)
  {
    if r :| 0 <= r < |g.rollbacks| && g.rollbacks[r].promotion == q { assert g.rollbacks[r] in g.rollbacks; }
  }

  /** A disable ticket takes its promotion down, records one rollback, deregisters the pack if the
      runtime does and marks the proposal; no other promotion moves. */
  lemma DisableExactly(g: Graph, i: nat, a: Answers)
    requires i < |g.tickets| && g.tickets[i].target < |g.promotions|
    requires g.promotions[g.tickets[i].target].status != Disabled ||
             !HasRollback(g, g.tickets[i].target)
    ensures var q, h := g.tickets[i].target, Disabling(g, i, a).0;
            && h.promotions == g.promotions[q := g.promotions[q].(status := Disabled)]
            && h.rollbacks == g.rollbacks + [Rollback(q, a.deregisters)]
            && (forall pack :: pack in h.running <==>
                  pack in g.running && !(a.deregisters && pack == g.promotions[q].pack))
            && (forall pack :: pack in h.running ==> h.running[pack] == g.running[pack])
            && h.tickets[i].status == Done && h.applied == g.applied
            && (g.promotions[q].proposal < |g.proposals| ==>
                  h.proposals[g.promotions[q].proposal].status == ProposalDisabled)
  {
    RolledBackIff(g, g.tickets[i].target);
  }

  /** One that was rolled back before, or names no promotion, only closes the ticket. */
  lemma DisableIdle(g: Graph, i: nat, a: Answers)
    requires i < |g.tickets|
    requires g.tickets[i].target < |g.promotions| ==>
               g.promotions[g.tickets[i].target].status == Disabled && HasRollback(g, g.tickets[i].target)
    ensures var h := Disabling(g, i, a).0;
            Untaken(g, h) && h.proposals == g.proposals &&
            h.tickets[i].status == if g.tickets[i].target < |g.promotions| then Done else Aborted
  {
    RolledBackIff(g, g.tickets[i].target);
  }

  // ----- over every run

  /** Nothing was ever loaded, recorded or promoted. */
  predicate Bare(g: Graph) { g.promotions == [] && g.running == map[] && g.applied == {} }

  lemma ProcessedBare(g: Graph, i: nat, a: Answers)
    requires Bare(g) && i < |g.tickets| && !Cleared(a)
    ensures Bare(Processed(g, i, a).0)
  {
    if !g.tickets[i].disables { LoadsIff(g, i, a); }
  }

  lemma {:induction false} SweptBare(g: Graph, todo: seq<nat>, answers: seq<Answers>, k: nat)
    requires Bare(g) && k <= |todo| == |answers| && forall j :: 0 <= j < |todo| ==> todo[j] < |g.tickets|
    requires forall j :: 0 <= j < |answers| ==> !Cleared(answers[j])
    ensures Bare(SweptUpTo(g, todo, answers, k))
  {
    if k == 0 {
    } else {
      SweptBare(g, todo, answers, k - 1);
      ProcessedBare(SweptUpTo(g, todo, answers, k - 1), todo[k - 1], answers[k - 1]);
    }
  }

  lemma RebootedBare(g: Graph, intact: set<string>)
    requires g.promotions == [] && g.applied == {}
    ensures Bare(Rebooted(g, intact))
  {
  }

  lemma DiedBare(g: Graph, i: nat, a: Answers, n: nat, intact: set<string>)
    requires Bare(g) && i < |g.tickets| && !Cleared(a)
    ensures Bare(Died(g, i, a, n, intact))
  {
    var ws := Writes(g, i, a);
    if !g.tickets[i].disables { RefusalQuiet(g, i, a); }
    QuietKeeps(g, if n <= |ws| then ws[..n] else ws);
    RebootedBare(Partial(g, i, a, n), intact);
  }

  /** No ticket of the action is let through up to the load. */
  predicate NoneCleared(action: Action) {
    match action
    case Sweep(answers) => forall j :: 0 <= j < |answers| ==> !Cleared(answers[j])
    case DieSweeping(answers, _, _) => forall j :: 0 <= j < |answers| ==> !Cleared(answers[j])
    case _ => true
  }

  lemma SweepDiedBare(g: Graph, answers: seq<Answers>, n: nat, intact: set<string>)
    requires Bare(g) && forall j :: 0 <= j < |answers| ==> !Cleared(answers[j])
    ensures Bare(SweepDied(g, answers, n, intact))
  {
    var todo, k := OpenTickets(g.tickets, |g.tickets|), |answers| - 1;
    if 0 < |answers| <= |todo| {
      var before := SweptUpTo(g, todo[..k], answers[..k], k);
      SweptBare(g, todo[..k], answers[..k], k);
      assert SweepDied(g, answers, n, intact) == Died(before, todo[k], answers[k], n, intact);
      DiedBare(before, todo[k], answers[k], n, intact);
    } else {
      RebootedBare(g, intact);
    }
  }

  lemma BootDiedBare(g: Graph, ws: seq<Write>, intact: set<string>)
    requires Bare(g)
    ensures Bare(BootDied(g, ws, intact))
  {
    RebootedBare(g, intact);
    if forall k :: 0 <= k < |ws| ==> BootWrite(g, ws[k]) {
      assert AllQuiet(ws);
      QuietKeeps(g, ws);
      RebootedBare(ApplyAll(g, ws), intact);
    }
  }

  lemma ActBare(g: Graph, action: Action)
    requires Bare(g) && NoneCleared(action)
    ensures Bare(Act(g, action))
  {
    match action
    case Sweep(answers) =>
      var todo := OpenTickets(g.tickets, |g.tickets|);
      if |answers| == |todo| { SweptBare(g, todo, answers, |todo|); }
    case Boot(intact) => RebootedBare(g, intact);
    case DieSweeping(answers, n, intact) => SweepDiedBare(g, answers, n, intact);
    case DieRequesting(p, intact) =>
      RebootedBare(if MayAdopt(g, p) then WithRequest(g, Ticket(false, p, Open)) else g, intact);
    case DieBooting(ws, intact) => BootDiedBare(g, ws, intact);
    case _ =>
  }

  /** A run none of whose tickets had a matching hash, passing gates, a stored fork and a free
      promote has loaded, recorded and promoted nothing. */
  lemma {:induction false} NothingUncleared(run: seq<Action>)
    requires forall k :: 0 <= k < |run| ==> NoneCleared(run[k])
    ensures Bare(After(run))
  {
    if run == [] {
    } else {
      NothingUncleared(run[..|run| - 1]);
      ActBare(After(run[..|run| - 1]), run[|run| - 1]);
    }
  }
}
