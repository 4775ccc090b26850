/** A process that dies inside a ticket and is started again: what is left of the packs it had
    adopted (packs/evolution/adopt.py and boot.py, docs/evolution-design.md section 10). */
module AdoptionDeaths {
  import opened Prelude
  import opened Adoption
  import opened AdoptionSafety
  import opened AdoptionBoot

  /** The process dies after the first `n` writes of a ticket, and a new one boots. */
  function Died(g: Graph, i: nat, a: Answers, n: nat, intact: set<string>): Graph
    requires i < |g.tickets|
  {
    Rebooted(Partial(g, i, a, n), intact)
  }

  /** No death inside a ticket breaks what the boot after it restores. */
  lemma DiedSafe(g: Graph, i: nat, a: Answers, n: nat, intact: set<string>)
    requires Sound(g) && i < |g.tickets|
    ensures Safe(Died(g, i, a, n, intact)) && Evolves(g, Died(g, i, a, n, intact))
  {
    var h := Partial(g, i, a, n);
    PartialSound(g, i, a, n);
    BootSafe(h, intact);
    EvolvesOn(g, h, Rebooted(h, intact));
  }

  // ----- writes that spare a promotion

  predicate Spares(w: Write, q: nat) {
    match w
    case Supersede(k, _) => k != q
    case Disable(k) => k != q
    case _ => true
  }

  predicate AllSpare(ws: seq<Write>, q: nat) { forall k :: 0 <= k < |ws| ==> Spares(ws[k], q) }

  /** Not disabled, and of the same subject. */
  predicate Stands(g: Graph, q: nat, m: Promotion) {
    q < |g.promotions| && SameSubject(g.promotions[q], m) && g.promotions[q].status != Disabled
  }

  lemma {:induction false} SparedStands(g: Graph, ws: seq<Write>, q: nat, m: Promotion)
    requires Stands(g, q, m) && AllSpare(ws, q)
    ensures Stands(ApplyAll(g, ws), q, m) && (IsActive(g, q) ==> IsActive(ApplyAll(g, ws), q))
    ensures g.applied <= ApplyAll(g, ws).applied
  {
    if ws == [] {
    } else {
      SparedStands(g, ws[..|ws| - 1], q, m);
    }
  }

  lemma {:induction false} SupersedeSpares(ms: seq<Promotion>, pack: string, by': nat, k: nat, q: nat)
    requires k <= |ms| && q < |ms| && (q == by' || ms[q].pack != pack)
    ensures AllSpare(SupersedeWrites(ms, pack, by', k), q)
  {
    if k == 0 {
    } else {
      SupersedeSpares(ms, pack, by', k - 1, q);
    }
  }

  lemma PromotionSpares(g: Graph, i: nat, p: nat, q: nat)
    requires p < |g.proposals| && LatestFork(g.trials, p).Some?
    ensures AllSpare(PromotionWrites(g, i, p), q)
  {
  }

  lemma ForkSpares(g: Graph, i: nat, p: nat, a: Answers, q: nat)
    requires p < |g.proposals| && (!HasFork(g, p) || !a.forkStored || !a.promotable || !a.promotes)
    ensures AllSpare(ForkWrites(g, i, p, a), q)
  {
  }

  lemma RefusalSpares(g: Graph, i: nat, a: Answers, q: nat)
    requires i < |g.tickets| && (Refusal(g, g.tickets[i].target, a).Some? || !a.promotes)
    ensures AllSpare(AdoptWrites(g, i, a), q)
  {
    var p := g.tickets[i].target;
    if p < |g.proposals| && a.pin == Verified && a.gates == Pass && g.proposals[p].status != NeedsOwner {
      ForkSpares(g, i, p, a, q);
    }
  }

  // ----- a pack with an active promotion keeps one

  /** After the writes the pack has an active promotion, or one that boot will heal. */
  ghost predicate KeepsPack(g: Graph, ws: seq<Write>, pack: string) {
    HasActive(HealedAll(ApplyAll(g, ws).promotions, ApplyAll(g, ws).applied), pack)
  }

  lemma StillActive(h: Graph, q: nat, m: Promotion)
    requires Stands(h, q, m) && (IsActive(h, q) || (m.fork != "" && m.fork in h.applied))
    ensures HasActive(HealedAll(h.promotions, h.applied), m.pack)
  {
    assert ActiveOf(HealedAll(h.promotions, h.applied), q, m.pack);
  }

  /** Before anything is superseded, an active promotion is still active. */
  lemma SparedKeepsPack(g: Graph, ws: seq<Write>, q: nat)
    requires IsActive(g, q) && AllSpare(ws, q)
    ensures KeepsPack(g, ws, g.promotions[q].pack)
  {
    SparedStands(g, ws, q, g.promotions[q]);
    StillActive(ApplyAll(g, ws), q, g.promotions[q]);
  }

  lemma PromotedStands(g: Graph, i: nat, p: nat) returns (r: Graph)
    requires i < |g.tickets| && p < |g.proposals| && HasFork(g, p)
    ensures r == ApplyAll(g, PromotionWrites(g, i, p))
    ensures r.promotions == Flipped(g.promotions + [Made(g, p)], Made(g, p).fork)
    ensures Stands(r, |g.promotions|, Made(g, p)) && Made(g, p).fork in r.applied
  {
    PromotionApplied(g, i, p);
    r := Recorded(Applied(g, i, p), Made(g, p).fork);
  }

  /** The supersessions spare the new promotion, whose marker is in the log. */
  lemma NewKeepsPack(g: Graph, i: nat, p: nat, ws: seq<Write>)
    requires i < |g.tickets| && p < |g.proposals| && HasFork(g, p) && AllSpare(ws, |g.promotions|)
    ensures KeepsPack(g, PromotionWrites(g, i, p) + ws, Made(g, p).pack)
  {
    var r := PromotedStands(g, i, p);
    ApplyConcat(g, PromotionWrites(g, i, p), ws);
    SparedStands(r, ws, |g.promotions|, Made(g, p));
    StillActive(ApplyAll(r, ws), |g.promotions|, Made(g, p));
  }

  lemma SupersessionsKeepPack(g: Graph, i: nat, p: nat, ms: seq<Promotion>, n: nat, q: nat)
    requires i < |g.tickets| && p < |g.proposals| && HasFork(g, p) && IsActive(g, q) && |ms| == |g.promotions| + 1
    requires ms == Flipped(g.promotions + [Made(g, p)], Made(g, p).fork)
    requires n <= |SupersedeWrites(ms, Made(g, p).pack, |g.promotions|, |ms|)|
    ensures var sup := SupersedeWrites(ms, Made(g, p).pack, |g.promotions|, |ms|);
            KeepsPack(g, PromotionWrites(g, i, p) + sup[..n], g.promotions[q].pack)
  {
    var made, by' := Made(g, p), |g.promotions|;
    var ws := SupersedeWrites(ms, made.pack, by', |ms|)[..n];
    if g.promotions[q].pack == made.pack {
      SupersedeSpares(ms, made.pack, by', |ms|, by');
      NewKeepsPack(g, i, p, ws);
    } else {
      PromotionSpares(g, i, p, q);
      SupersedeSpares(ms, made.pack, by', |ms|, q);
      SparedKeepsPack(g, PromotionWrites(g, i, p) + ws, q);
    }
  }

  lemma PromotedKeepsPack(g: Graph, i: nat, p: nat, sup: seq<Write>, n: nat, q: nat)
    requires i < |g.tickets| && p < |g.proposals| && HasFork(g, p) && IsActive(g, q)
    requires var ms := Flipped(g.promotions + [Made(g, p)], Made(g, p).fork);
             sup == SupersedeWrites(ms, Made(g, p).pack, |g.promotions|, |ms|)
    requires n <= |PromotionWrites(g, i, p) + sup|
    ensures KeepsPack(g, (PromotionWrites(g, i, p) + sup)[..n], g.promotions[q].pack)
  {
    var before := PromotionWrites(g, i, p);
    if n <= |before| {
      assert (before + sup)[..n] == before[..n];
      PromotionSpares(g, i, p, q);
      SparedKeepsPack(g, before[..n], q);
    } else {
      assert (before + sup)[..n] == before + sup[..n - |before|];
      SupersessionsKeepPack(g, i, p, Flipped(g.promotions + [Made(g, p)], Made(g, p).fork), n - |before|, q);
    }
  }

  lemma AdoptKeepsPack(g: Graph, i: nat, a: Answers, n: nat, q: nat)
    requires i < |g.tickets| && IsActive(g, q) && n <= |AdoptWrites(g, i, a)|
    ensures KeepsPack(g, AdoptWrites(g, i, a)[..n], g.promotions[q].pack)
  {
    var p := g.tickets[i].target;
    if Refusal(g, p, a).Some? || !a.promotes {
      RefusalSpares(g, i, a, q);
      SparedKeepsPack(g, AdoptWrites(g, i, a)[..n], q);
    } else {
      var ms := Flipped(g.promotions + [Made(g, p)], Made(g, p).fork);
      SupersessionsLast(g, i, a);
      PromotedKeepsPack(g, i, p, SupersedeWrites(ms, Made(g, p).pack, |g.promotions|, |ms|), n, q);
    }
  }

  /** Wherever inside a ticket the process dies, a pack with an intact bundle and an active
      promotion, other than one the ticket itself disables, has one after the restart. */
  lemma DeathKeepsPack(g: Graph, i: nat, a: Answers, n: nat, intact: set<string>, q: nat)
    requires i < |g.tickets| && IsActive(g, q) && g.promotions[q].pack in intact
    requires g.tickets[i].disables ==> g.tickets[i].target != q
    ensures HasActive(Died(g, i, a, n, intact).promotions, g.promotions[q].pack)
  {
    var ws, h := Writes(g, i, a), Partial(g, i, a, n);
    var k := Least(n, |ws|);
    assert ws[..|ws|] == ws && h == ApplyAll(g, ws[..k]);
    if g.tickets[i].disables {
      SparedKeepsPack(g, ws[..k], q);
    } else {
      AdoptKeepsPack(g, i, a, k, q);
    }
    BootKeepsPackIff(h, intact, g.promotions[q].pack);
  }

  // ----- what a prefix of an adopt ticket's writes has done to the promotions

  predicate Quiet(w: Write) { w.TicketSet? || w.ProposalSet? || w.Load? }

  predicate AllQuiet(ws: seq<Write>) { forall k :: 0 <= k < |ws| ==> Quiet(ws[k]) }

  lemma {:induction false} QuietKeeps(g: Graph, ws: seq<Write>)
    requires AllQuiet(ws)
    ensures ApplyAll(g, ws).promotions == g.promotions && ApplyAll(g, ws).applied == g.applied
  {
    if ws == [] {
    } else {
      QuietKeeps(g, ws[..|ws| - 1]);
    }
  }

  predicate Untouched(g: Graph, h: Graph) { h.promotions == g.promotions && h.applied == g.applied }

  predicate JustRecorded(g: Graph, p: nat, h: Graph)
    requires p < |g.proposals| && HasFork(g, p)
  {
    h.promotions == g.promotions + [Made(g, p)] && h.applied == g.applied
  }

  /** The marker is in the log; promotions of other packs are as they were. */
  predicate Committed(g: Graph, p: nat, h: Graph)
    requires p < |g.proposals| && HasFork(g, p)
  {
    && |h.promotions| == |g.promotions| + 1 && Stands(h, |g.promotions|, Made(g, p))
    && h.applied == g.applied + {Made(g, p).fork}
    && forall q :: 0 <= q < |g.promotions| ==>
         SameSubject(g.promotions[q], h.promotions[q]) &&
         (g.promotions[q].pack != Made(g, p).pack ==> h.promotions[q] == g.promotions[q])
  }

  /** A write after the marker: it concerns the ticket's pack, and spares the new promotion. */
  predicate Late(g: Graph, p: nat, w: Write)
    requires p < |g.proposals| && HasFork(g, p)
  {
    match w
    case TicketSet(_, _) => true
    case ProposalSet(_, _) => true
    case Flip(q) => q < |g.promotions| ==> g.promotions[q].pack == Made(g, p).pack
    case Supersede(q, _) => q < |g.promotions| && g.promotions[q].pack == Made(g, p).pack
    case _ => false
  }

  predicate AllLate(g: Graph, p: nat, ws: seq<Write>)
    requires p < |g.proposals| && HasFork(g, p)
  {
    forall k :: 0 <= k < |ws| ==> Late(g, p, ws[k])
  }

  lemma {:induction false} LateKeeps(g: Graph, p: nat, h: Graph, ws: seq<Write>)
    requires p < |g.proposals| && HasFork(g, p) && Committed(g, p, h) && AllLate(g, p, ws)
    ensures Committed(g, p, ApplyAll(h, ws))
  {
    if ws == [] {
    } else {
      LateKeeps(g, p, h, ws[..|ws| - 1]);
      LateStep(g, p, ApplyAll(h, ws[..|ws| - 1]), ws[|ws| - 1]);
    }
  }

  lemma LateStep(g: Graph, p: nat, h: Graph, w: Write)
    requires p < |g.proposals| && HasFork(g, p) && Committed(g, p, h) && Late(g, p, w)
    ensures Committed(g, p, Apply(h, w))
  {
  }

  lemma {:induction false} SupersedeLate(g: Graph, p: nat, ms: seq<Promotion>, k: nat)
    requires p < |g.proposals| && HasFork(g, p) && k <= |ms| == |g.promotions| + 1
    requires forall q :: 0 <= q < |g.promotions| ==> SameSubject(g.promotions[q], ms[q])
    ensures AllLate(g, p, SupersedeWrites(ms, Made(g, p).pack, |g.promotions|, k))
  {
    if k == 0 {
    } else {
      SupersedeLate(g, p, ms, k - 1);
    }
  }

  lemma SettleLate(g: Graph, i: nat, p: nat)
    requires p < |g.proposals| && HasFork(g, p) && OwnFork(g, p)
    ensures AllLate(g, p, [TicketSet(i, Done)] + SettleWrites(g, p))
  {
    var ms, fork := g.promotions + [Made(g, p)], Made(g, p).fork;
    SupersedeLate(g, p, Flipped(ms, fork), |ms|);
  }

  /** The first five writes of a ticket that passes every check. */
  function FirstFive(g: Graph, p: nat): seq<Write>
    requires p < |g.proposals| && HasFork(g, p)
  {
    GatedWrites(p, Pass) + ([ProposalSet(p, Adopting)] + LoadWrites(g, p))
  }

  lemma FiveApplied(g: Graph, p: nat)
    requires p < |g.proposals| && HasFork(g, p)
    ensures ApplyAll(g, FirstFive(g, p)) == WithProposal(Loaded(g, p), p, Adopting)
  {
    GatedApplied(g, p, Pass, [ProposalSet(p, Adopting)] + LoadWrites(g, p));
    AdoptingApplied(g, p, LoadWrites(g, p));
    LoadApplied(g, p, []);
    assert LoadWrites(g, p) + [] == LoadWrites(g, p);
  }

  function Rest(g: Graph, i: nat, p: nat, promotes: bool): seq<Write>
    requires p < |g.proposals| && HasFork(g, p)
  {
    if promotes then CommitWrites(g, i, p) + SettleWrites(g, p) else AbortWrites(i, p, InConflict)
  }

  lemma InstallStages(g: Graph, i: nat, p: nat, promotes: bool, k: nat)
    requires i < |g.tickets| && p < |g.proposals| && HasFork(g, p) && OwnFork(g, p)
    requires k <= |Rest(g, i, p, promotes)|
    ensures var h := ApplyAll(WithProposal(Loaded(g, p), p, Adopting), Rest(g, i, p, promotes)[..k]);
            JustRecorded(g, p, h) || Committed(g, p, h)
  {
    var m := WithProposal(Loaded(g, p), p, Adopting);
    if !promotes {
      QuietKeeps(m, AbortWrites(i, p, InConflict)[..k]);
    } else if k == 0 {
      assert (CommitWrites(g, i, p) + SettleWrites(g, p))[..0] == [];
    } else {
      CommittedStage(g, i, p, k);
    }
  }

  lemma CommittedStage(g: Graph, i: nat, p: nat, k: nat)
    requires i < |g.tickets| && p < |g.proposals| && HasFork(g, p) && OwnFork(g, p)
    requires 0 < k <= |CommitWrites(g, i, p) + SettleWrites(g, p)|
    ensures var m := WithProposal(Loaded(g, p), p, Adopting);
            Committed(g, p, ApplyAll(m, (CommitWrites(g, i, p) + SettleWrites(g, p))[..k]))
  {
    var mark, late := Marked(Made(g, p).fork), [TicketSet(i, Done)] + SettleWrites(g, p);
    assert CommitWrites(g, i, p) + SettleWrites(g, p) == [mark] + late;
    assert ([mark] + late)[..k] == [mark] + late[..k - 1];
    SettleLate(g, i, p);
    MarkedStage(g, p, late[..k - 1]);
  }

  lemma MarkedStage(g: Graph, p: nat, late: seq<Write>)
    requires p < |g.proposals| && HasFork(g, p) && AllLate(g, p, late)
    ensures Committed(g, p, ApplyAll(WithProposal(Loaded(g, p), p, Adopting), [Marked(Made(g, p).fork)] + late))
  {
    var m, mark := WithProposal(Loaded(g, p), p, Adopting), Marked(Made(g, p).fork);
    ApplyConcat(m, [mark], late);
    ApplyOne(m, mark);
    assert Committed(g, p, Apply(m, mark));
    LateKeeps(g, p, Apply(m, mark), late);
  }

  lemma PassedWrites(g: Graph, i: nat, a: Answers)
    requires i < |g.tickets| && Refusal(g, g.tickets[i].target, a).None?
    ensures AdoptWrites(g, i, a) == FirstFive(g, g.tickets[i].target) + Rest(g, i, g.tickets[i].target, a.promotes)
  {
  }

  lemma PassedStages(g: Graph, i: nat, p: nat, promotes: bool, k: nat)
    requires i < |g.tickets| && p < |g.proposals| && HasFork(g, p) && OwnFork(g, p)
    requires k <= |FirstFive(g, p) + Rest(g, i, p, promotes)|
    ensures var h := ApplyAll(g, (FirstFive(g, p) + Rest(g, i, p, promotes))[..k]);
            Untouched(g, h) || JustRecorded(g, p, h) || Committed(g, p, h)
  {
    var five, rest := FirstFive(g, p), Rest(g, i, p, promotes);
    if k < 5 {
      assert (five + rest)[..k] == five[..k];
      EarlyStage(g, p, k);
    } else {
      assert (five + rest)[..k] == five + rest[..k - 5];
      LaterStage(g, i, p, promotes, k - 5);
    }
  }

  lemma LaterStage(g: Graph, i: nat, p: nat, promotes: bool, k: nat)
    requires i < |g.tickets| && p < |g.proposals| && HasFork(g, p) && OwnFork(g, p) && k <= |Rest(g, i, p, promotes)|
    ensures var h := ApplyAll(g, FirstFive(g, p) + Rest(g, i, p, promotes)[..k]);
            JustRecorded(g, p, h) || Committed(g, p, h)
  {
    ApplyConcat(g, FirstFive(g, p), Rest(g, i, p, promotes)[..k]);
    FiveApplied(g, p);
    InstallStages(g, i, p, promotes, k);
  }

  lemma EarlyStage(g: Graph, p: nat, k: nat)
    requires p < |g.proposals| && HasFork(g, p) && k < 5
    ensures |FirstFive(g, p)| == 5 && Untouched(g, ApplyAll(g, FirstFive(g, p)[..k]))
  {
    QuietKeeps(g, FirstFive(g, p)[..k]);
  }

  lemma RefusalQuiet(g: Graph, i: nat, a: Answers)
    requires i < |g.tickets| && Refusal(g, g.tickets[i].target, a).Some?
    ensures AllQuiet(AdoptWrites(g, i, a))
  {
  }

  lemma AdoptStages(g: Graph, i: nat, a: Answers, n: nat)
    requires Forks(g) && i < |g.tickets| && !g.tickets[i].disables
    ensures var p, h := g.tickets[i].target, Partial(g, i, a, n);
            Untouched(g, h) ||
            (Refusal(g, p, a).None? && (JustRecorded(g, p, h) || Committed(g, p, h)))
  {
    var ws := AdoptWrites(g, i, a);
    var k := Least(n, |ws|);
    assert ws[..|ws|] == ws && Partial(g, i, a, n) == ApplyAll(g, ws[..k]);
    if Refusal(g, g.tickets[i].target, a).Some? {
      RefusalQuiet(g, i, a);
      QuietKeeps(g, ws[..k]);
    } else {
      ForksOwned(g, g.tickets[i].target);
      PassedWrites(g, i, a);
      PassedStages(g, i, g.tickets[i].target, a.promotes, k);
    }
  }

  // ----- an interrupted disable

  /** Tickets may be closed, nothing else about them changes. */
  ghost predicate SameTickets(g: Graph, h: Graph) {
    && |g.tickets| == |h.tickets|
    && forall k :: 0 <= k < |g.tickets| ==> SameTicket(g.tickets[k], h.tickets[k])
  }

  predicate SameTicket(t: Ticket, u: Ticket) { u.disables == t.disables && u.target == t.target }

  lemma {:induction false} WritesKeepTickets(g: Graph, ws: seq<Write>)
    ensures SameTickets(g, ApplyAll(g, ws))
  {
    if ws == [] {
    } else {
      WritesKeepTickets(g, ws[..|ws| - 1]);
    }
  }

  lemma BootKeepsTickets(g: Graph, intact: set<string>)
    ensures SameTickets(g, Rebooted(g, intact))
  {
  }

  predicate TakenDownBy(g: Graph, i: nat, q: nat) {
    && i < |g.tickets| && g.tickets[i].status == Done
    && q < |g.promotions| && g.promotions[q].status == Disabled && RolledBack(g.rollbacks, q)
  }

  /** A disable ticket interrupted anywhere and processed again, with whatever answers, ends with its
      promotion disabled and, as the graph is safe, rolled back once. */
  lemma DisableResumes(g: Graph, i: nat, a: Answers, n: nat, intact: set<string>, b: Answers)
    requires Sound(g) && i < |g.tickets| && g.tickets[i].disables && g.tickets[i].target < |g.promotions|
    ensures var q, d := g.tickets[i].target, Died(g, i, a, n, intact);
            i < |d.tickets| && Safe(Processed(d, i, b).0) && TakenDownBy(Processed(d, i, b).0, i, q)
  {
    var d := Died(g, i, a, n, intact);
    DiedSafe(g, i, a, n, intact);
    var ws := Writes(g, i, a);
    WritesKeepTickets(g, if n <= |ws| then ws[..n] else ws);
    BootKeepsTickets(Partial(g, i, a, n), intact);
    ProcessedSafe(d, i, b);
    DisablingRollsBack(d, i, b);
  }

  lemma DisablingRollsBack(g: Graph, i: nat, a: Answers)
    requires i < |g.tickets| && g.tickets[i].target < |g.promotions|
    ensures TakenDownBy(Disabling(g, i, a).0, i, g.tickets[i].target)
  {
    var q, h := g.tickets[i].target, Disabling(g, i, a).0;
    if CanRollBack(g, q) { assert h.rollbacks[|g.rollbacks|] == Rollback(q, a.deregisters); }
  }
}
