/** The chassis: the graph and the runtime's packs as fields, changed write by write
    (packs/evolution/adopt.py, behaviors.py and boot.py). */
module AdoptionChassis {
  import opened Prelude
  import opened Adoption
  import opened AdoptionSafety
  import opened AdoptionBoot
  import opened AdoptionRuns

  class Chassis {
    var proposals: seq<Proposal>
    var trials: seq<Trial>
    var promotions: seq<Promotion>
    var rollbacks: seq<Rollback>
    var tickets: seq<Ticket>
    var applied: set<string>
    var running: map<string, nat>

    /** The graph the log started from, and the writes made since. */
    ghost var base: Graph
    ghost var written: seq<Write>

    function Value(): Graph
      reads this
    {
      Graph(proposals, trials, promotions, rollbacks, tickets, applied, running)
    }

    /** The fields are what the log makes of the graph it started from. */
    ghost predicate Valid()
      reads this
    {
      forall ws :: ws == written ==> Value() == ApplyAll(base, ws)
    }

    constructor ()
      ensures Valid() && Value() == After([]) && written == []
    {
      proposals, trials, promotions, rollbacks, tickets, applied, running := [], [], [], [], [], {}, map[];
      base, written := EMPTY, [];
    }

    /** The governed executors: all they do is open a ticket. */
    method AdoptProposal(p: nat) returns (accepted: bool)
      modifies this
      ensures Valid() && Value() == Act(old(Value()), RequestAdopt(p))
      ensures accepted <==> MayAdopt(old(Value()), p)
    {
      accepted := p < |proposals| && proposals[p].status in {Trialed, PendingApproval};
      if accepted {
        tickets := tickets + [Ticket(false, p, Open)];
        proposals := proposals[p := proposals[p].(status := Adopting)];
      }
      base, written := Value(), [];
    }

    method DisablePromotion(q: nat) returns (accepted: bool)
      modifies this
      ensures Valid() && Value() == Act(old(Value()), RequestDisable(q))
      ensures accepted <==> q < |old(promotions)|
    {
      accepted := q < |promotions|;
      if accepted { tickets := tickets + [Ticket(true, q, Open)]; }
      base, written := Value(), [];
    }

    // ----- one write each

    method SetTicket(i: nat, s: TicketStatus)
      requires Valid() && i < |tickets|
      modifies this`tickets, this`written
      ensures Valid() && written == old(written) + [TicketSet(i, s)]
    {
      ApplyNext(base, written, TicketSet(i, s));
      tickets := tickets[i := tickets[i].(status := s)];
      written := written + [TicketSet(i, s)];
    }

    method SetProposal(p: nat, s: ProposalStatus)
      requires Valid() && p < |proposals|
      modifies this`proposals, this`written
      ensures Valid() && written == old(written) + [ProposalSet(p, s)]
      ensures proposals == old(proposals)[p := old(proposals)[p].(status := s)]
    {
      ApplyNext(base, written, ProposalSet(p, s));
      proposals := proposals[p := proposals[p].(status := s)];
      written := written + [ProposalSet(p, s)];
    }

    method Abort(i: nat, p: nat, s: ProposalStatus)
      requires Valid() && i < |tickets| && p < |proposals|
      modifies this`tickets, this`proposals, this`written
      ensures Valid() && written == old(written) + AbortWrites(i, p, s)
    {
      SetTicket(i, Aborted);
      SetProposal(p, s);
    }

    method LoadPack(pack: string, p: nat)
      requires Valid()
      modifies this`running, this`written
      ensures Valid() && written == old(written) + [Load(pack, p)]
    {
      ApplyNext(base, written, Load(pack, p));
      running := running[pack := p];
      written := written + [Load(pack, p)];
    }

    method AddPromotion(m: Promotion)
      requires Valid()
      modifies this`promotions, this`written
      ensures Valid() && written == old(written) + [PromotionAdded(m)] && promotions == old(promotions) + [m]
    {
      ApplyNext(base, written, PromotionAdded(m));
      promotions := promotions + [m];
      written := written + [PromotionAdded(m)];
    }

    method Activate(q: nat)
      requires Valid() && q < |promotions|
      modifies this`promotions, this`written
      ensures Valid() && written == old(written) + [Flip(q)]
      ensures promotions == old(promotions)[q := old(promotions)[q].(status := Active)]
    {
      ApplyNext(base, written, Flip(q));
      promotions := promotions[q := promotions[q].(status := Active)];
      written := written + [Flip(q)];
    }

    method SupersedePromotion(q: nat, by': nat)
      requires Valid() && q < |promotions|
      modifies this`promotions, this`written
      ensures Valid() && written == old(written) + [Supersede(q, by')]
      ensures promotions ==
              old(promotions)[q := old(promotions)[q].(status := PromotionStatus.Disabled, supersededBy := Some(by'))]
    {
      ApplyNext(base, written, Supersede(q, by'));
      promotions := promotions[q := promotions[q].(status := PromotionStatus.Disabled, supersededBy := Some(by'))];
      written := written + [Supersede(q, by')];
    }

    method DisablePromotionRecord(q: nat)
      requires Valid() && q < |promotions|
      modifies this`promotions, this`written
      ensures Valid() && written == old(written) + [Disable(q)]
    {
      ApplyNext(base, written, Disable(q));
      promotions := promotions[q := promotions[q].(status := PromotionStatus.Disabled)];
      written := written + [Disable(q)];
    }

    method EmitMarker(fork: string)
      requires Valid()
      modifies this`applied, this`written
      ensures Valid() && written == old(written) + [Marked(fork)]
    {
      ApplyNext(base, written, Marked(fork));
      applied := applied + {fork};
      written := written + [Marked(fork)];
    }

    // ----- tickets

    /** One adopt ticket: the stages in canonical order, each of which may abort. */
    method ProcessAdopt(i: nat, a: Answers) returns (outcome: Outcome)
      requires Valid() && i < |tickets|
      modifies this`proposals, this`tickets, this`promotions, this`running, this`applied, this`written
      ensures Valid() && written == old(written) + AdoptWrites(old(Value()), i, a)
      ensures outcome == Adopted(old(Value()), i, a).1
    {
      var p := tickets[i].target;
      if p >= |proposals| { SetTicket(i, Aborted); return Vanished; }
      if proposals[p].status == NeedsOwner { SetTicket(i, Aborted); return OwnerOnly; }
      if a.pin == Mismatch { Abort(i, p, Suspended); return HashMismatch; }
      if a.pin == Broken { Abort(i, p, Suspended); return MaterializeError; }
      outcome := ProcessGates(i, p, a);
    }

    method ProcessGates(i: nat, p: nat, a: Answers) returns (outcome: Outcome)
      requires Valid() && i < |tickets| && p < |proposals|
      modifies this`proposals, this`tickets, this`promotions, this`running, this`applied, this`written
      ensures Valid() && written == old(written) + GateWrites(old(Value()), i, p, a)
      ensures outcome == if a.gates != Pass then GatesFailed else ForkOutcome(old(Value()), p, a)
    {
      RunGates(p, a.gates);
      if a.gates != Pass { SetTicket(i, Aborted); return GatesFailed; }
      SetProposal(p, Adopting);
      outcome := ProcessFork(i, p, a);
    }

    method RunGates(p: nat, gates: Gates)
      requires Valid() && p < |proposals|
      modifies this`proposals, this`written
      ensures Valid() && written == old(written) + GatedWrites(p, gates)
      ensures proposals == old(proposals)[p := old(proposals)[p].(status := GateStatus(gates))]
    {
      SetProposal(p, Gated);
      SetProposal(p, GateStatus(gates));
    }

    method ProcessFork(i: nat, p: nat, a: Answers) returns (outcome: Outcome)
      requires Valid() && i < |tickets| && p < |proposals|
      modifies this`proposals, this`tickets, this`promotions, this`running, this`applied, this`written
      ensures Valid() && written == old(written) + ForkWrites(old(Value()), i, p, a)
      ensures outcome == ForkOutcome(old(Value()), p, a)
    {
      var fork := LatestFork(trials, p);
      if fork.None? || fork.value == "" || !a.forkStored { Abort(i, p, Gated); return RetrialRequired; }
      if !a.promotable { Abort(i, p, InConflict); return Conflict; }
      outcome := LoadAndPromote(i, p, fork.value, a.promotes);
    }

    method LoadAndPromote(i: nat, p: nat, fork: string, promotes: bool) returns (outcome: Outcome)
      requires Valid() && i < |tickets| && p < |proposals| && LatestFork(trials, p) == Some(fork)
      modifies this`proposals, this`tickets, this`promotions, this`running, this`applied, this`written
      ensures Valid() && written == old(written) + InstallWrites(old(Value()), i, p, promotes)
      ensures outcome == if promotes then PromotedAs(|old(promotions)|) else ConflictLate(|old(promotions)|)
    {
      var pack, q := proposals[p].pack, |promotions|;
      LoadPack(pack, p);
      AddPromotion(Promotion(p, pack, fork, Loading, None));
      if !promotes { Abort(i, p, InConflict); return ConflictLate(q); }
      CommitPromotion(i, fork, pack, q);
      outcome := PromotedAs(q);
    }

    method CommitPromotion(i: nat, fork: string, pack: string, q: nat)
      requires Valid() && i < |tickets|
      modifies this`proposals, this`tickets, this`promotions, this`applied, this`written
      ensures Valid()
      ensures var ms := Flipped(old(promotions), fork);
              written == old(written) + ([Marked(fork), TicketSet(i, Done)] +
                (RecorderWrites(old(promotions), fork, |old(proposals)|) + SupersedeWrites(ms, pack, q, |ms|)))
    {
      EmitMarker(fork);
      SetTicket(i, Done);
      Settle(fork, pack, q);
    }

    method Settle(fork: string, pack: string, by': nat)
      requires Valid()
      modifies this`proposals, this`promotions, this`written
      ensures Valid()
      ensures var ms := Flipped(old(promotions), fork);
              written == old(written) +
                (RecorderWrites(old(promotions), fork, |old(proposals)|) + SupersedeWrites(ms, pack, by', |ms|))
    {
      PromotionRecorder(fork);
      SupersedePriorActives(pack, by');
    }

    method PromotionRecorder(fork: string)
      requires Valid()
      modifies this`promotions, this`proposals, this`written
      ensures Valid() && written == old(written) + RecorderWrites(old(promotions), fork, |old(proposals)|)
      ensures promotions == Flipped(old(promotions), fork) && |proposals| == |old(proposals)|
    {
      if fork == "" { return; }
      for k := 0 to |promotions|
        invariant forall m :: 0 <= m < k ==> promotions[m].fork != fork || promotions[m].status != Loading
        invariant Valid() && promotions == old(promotions) && proposals == old(proposals) && written == old(written)
      {
        if promotions[k].fork == fork && promotions[k].status == Loading {
          assert FirstLoading(promotions, fork) == Some(k);
          var p := promotions[k].proposal;
          Activate(k);
          if p < |proposals| { SetProposal(p, Promoted); }
          return;
        }
      }
    }

    method SupersedePriorActives(pack: string, by': nat)
      requires Valid()
      modifies this`promotions, this`written
      ensures Valid() && written == old(written) + SupersedeWrites(old(promotions), pack, by', |old(promotions)|)
      ensures promotions == Superseded(old(promotions), pack, by')
    {
      ghost var ms := promotions;
      for k := 0 to |promotions|
        invariant Valid() && promotions == SupersededUpTo(ms, pack, by', k)
        invariant written == old(written) + SupersedeWrites(ms, pack, by', k)
      {
        SupersededOneMore(ms, pack, by', k + 1);
        if k != by' && promotions[k].pack == pack && promotions[k].status == Active {
          SupersedePromotion(k, by');
        }
      }
    }

    method ProcessDisable(i: nat, a: Answers) returns (outcome: Outcome)
      requires Valid() && i < |tickets|
      modifies this`proposals, this`tickets, this`promotions, this`rollbacks, this`running, this`written
      ensures Valid() && written == old(written) + DisableWrites(old(Value()), i, a)
      ensures outcome == Disabling(old(Value()), i, a).1
    {
      var q := tickets[i].target;
      if q >= |promotions| { SetTicket(i, Aborted); return Vanished; }
      if promotions[q].status == PromotionStatus.Disabled && RolledBack(rollbacks, q) {
        SetTicket(i, Done);
        return AlreadyDisabled;
      }
      var p := promotions[q].proposal;
      TakeDown(q, a.deregisters);
      AddRollback(Rollback(q, a.deregisters));
      CloseDisabled(i, p);
      outcome := DisabledNow;
    }

    method CloseDisabled(i: nat, p: nat)
      requires Valid() && i < |tickets|
      modifies this`proposals, this`tickets, this`written
      ensures Valid()
      ensures written == old(written) +
              ((if p < |old(proposals)| then [ProposalSet(p, ProposalDisabled)] else []) + [TicketSet(i, Done)])
    {
      if p < |proposals| { SetProposal(p, ProposalDisabled); }
      SetTicket(i, Done);
    }

    method TakeDown(q: nat, deregisters: bool)
      requires Valid() && q < |promotions|
      modifies this`promotions, this`running, this`written
      ensures Valid()
      ensures written == old(written) + (if deregisters then [Deregister(old(promotions)[q].pack)] else []) +
              [Disable(q)]
    {
      if deregisters { DisablePack(promotions[q].pack); }
      DisablePromotionRecord(q);
    }

    method DisablePack(pack: string)
      requires Valid()
      modifies this`running, this`written
      ensures Valid() && written == old(written) + [Deregister(pack)]
    {
      ApplyNext(base, written, Deregister(pack));
      running := running - {pack};
      written := written + [Deregister(pack)];
    }

    method AddRollback(r: Rollback)
      requires Valid()
      modifies this`rollbacks, this`written
      ensures Valid() && written == old(written) + [RollbackAdded(r)]
    {
      ApplyNext(base, written, RollbackAdded(r));
      rollbacks := rollbacks + [r];
      written := written + [RollbackAdded(r)];
    }

    /** One ticket: its writes in order, and what they come to. */
    method ProcessTicket(i: nat, a: Answers) returns (outcome: Outcome)
      requires Valid() && i < |tickets|
      modifies this
      ensures Valid() && base == old(base) && written == old(written) + Writes(old(Value()), i, a)
      ensures (Value(), outcome) == Processed(old(Value()), i, a)
    {
      ghost var g := Value();
      if tickets[i].disables {
        outcome := ProcessDisable(i, a);
      } else {
        outcome := ProcessAdopt(i, a);
      }
      ApplyConcat(base, old(written), Writes(g, i, a));
      ProcessedByWrites(g, i, a);
    }

    method ProcessTickets(todo: seq<nat>, answers: seq<Answers>)
      requires Valid() && |todo| == |answers| && forall j :: 0 <= j < |todo| ==> todo[j] < |tickets|
      modifies this
      ensures Valid() && Value() == SweptUpTo(old(Value()), todo, answers, |todo|)
    {
      ghost var g := Value();
      for k := 0 to |todo|
        invariant Valid() && Value() == SweptUpTo(g, todo, answers, k)
      {
        ghost var before := Value();
        var outcome := ProcessTicket(todo[k], answers[k]);
        assert Value() == Processed(before, todo[k], answers[k]).0;
      }
    }

    /** One sweep over the tickets open at its start. */
    method ProcessAdoptionTickets(answers: seq<Answers>)
      requires Valid() && |answers| == |OpenTickets(tickets, |tickets|)|
      modifies this
      ensures Valid() && Value() == Act(old(Value()), Sweep(answers))
    {
      ProcessTickets(OpenTickets(tickets, |tickets|), answers);
    }

    /** A new process: loading promotions are healed or parked, then each pack's survivor is reloaded. */
    method ReloadAdoptedPacks(intact: set<string>)
      modifies this
      ensures Valid() && Value() == Act(old(Value()), Boot(intact))
    {
      HealLoading();
      ResolveActives(intact);
      base, written := Value(), [];
    }

    method HealLoading()
      modifies this`promotions, this`tickets
      ensures promotions == HealedAll(old(promotions), applied)
      ensures tickets == ClosedAll(old(tickets), old(promotions), applied, |old(promotions)|)
    {
      ghost var ms, ts := promotions, tickets;
      ClosedNone(ts, ms, applied);
      for q := 0 to |promotions|
        invariant |promotions| == |ms| && tickets == ClosedAll(ts, ms, applied, q)
        invariant forall k :: 0 <= k < q ==> promotions[k] == Healed(ms[k], applied)
        invariant forall k :: q <= k < |ms| ==> promotions[k] == ms[k]
      {
        var m := promotions[q];
        if m.status == Loading && m.fork != "" && m.fork in applied {
          promotions := promotions[q := m.(status := Active)];
          CloseTickets(m.proposal);
        } else if m.status == Loading {
          promotions := promotions[q := m.(status := PromotionStatus.Disabled)];
        }
        ClosedStep(ts, ms, applied, q);
      }
    }

    method CloseTickets(p: nat)
      modifies this`tickets
      ensures tickets == ClosedFor(old(tickets), p)
    {
      for i := 0 to |tickets|
        invariant |tickets| == |old(tickets)|
        invariant forall k :: 0 <= k < i ==> tickets[k] == ClosedOne(old(tickets)[k], p)
        invariant forall k :: i <= k < |tickets| ==> tickets[k] == old(tickets)[k]
      {
        if tickets[i].status == Open && !tickets[i].disables && tickets[i].target == p {
          tickets := tickets[i := tickets[i].(status := TicketStatus.Done)];
        }
      }
    }

    method ResolveActives(intact: set<string>)
      modifies this`promotions, this`running
      ensures promotions == ResolvedAll(old(promotions), |proposals|, intact)
      ensures running == ReloadedUpTo(old(promotions), |proposals|, intact, |old(promotions)|)
    {
      var ms := promotions;
      running := map[];
      for q := 0 to |ms|
        invariant |promotions| == |ms| && running == ReloadedUpTo(ms, |proposals|, intact, q)
        invariant forall k :: 0 <= k < q ==> promotions[k] == Resolved(ms, |proposals|, intact, k)
        invariant forall k :: q <= k < |ms| ==> promotions[k] == ms[k]
      {
        if ms[q].status == Active && !Survives(ms, q) {
          var survivor := LastActive(ms, ms[q].pack);
          promotions := promotions[q := ms[q].(status := PromotionStatus.Disabled, supersededBy := survivor)];
        } else if Reloads(ms, |proposals|, q) {
          if ms[q].pack in intact {
            running := running[ms[q].pack := ms[q].proposal];
          } else {
            promotions := promotions[q := ms[q].(status := PromotionStatus.Disabled)];
          }
        }
      }
    }
  }
}
