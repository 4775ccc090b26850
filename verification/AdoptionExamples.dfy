/** Runs of the adoption processor that end with a pack running and no active promotion, with an
    active promotion whose bundle is not the one running, or with a graph a boot has to repair
    (packs/evolution/adopt.py and boot.py). */
module AdoptionExamples {
  import opened Prelude
  import opened Adoption
  import opened AdoptionSafety
  import opened AdoptionBoot
  import opened AdoptionDeaths
  import opened AdoptionRuns
  import opened RunningPacks

  lemma AfterAppend(run: seq<Action>, action: Action)
    ensures After(run + [action]) == Act(After(run), action)
  {
    assert (run + [action])[..|run|] == run;
  }

  const CLEAN := Answers(Verified, Pass, true, true, true, true)

  /** The promote fails after the load. */
  const LATE := CLEAN.(promotes := false)

  const TWICE := Graph([Proposal("p", Adopting)], [Trial(0, true, "f")], [], [],
                       [Ticket(false, 0, Open), Ticket(false, 0, Open)], {}, map[])

  const PROPOSED: seq<Action> := [Propose("p")]

  const TRIED: seq<Action> := PROPOSED + [Try(Trial(0, true, "f"))]

  const TO_TICKET: seq<Action> := TRIED + [Restatus(0, Trialed)] + [RequestAdopt(0)]

  lemma OneTried()
    ensures After(TRIED) == TWICE.(proposals := [Proposal("p", Drafted)], tickets := [])
  {
    assert PROPOSED == [] + [Propose("p")];
    AfterAppend([], Propose("p"));
    assert After(PROPOSED) == EMPTY.(proposals := [Proposal("p", Drafted)]);
    AfterAppend(PROPOSED, Try(Trial(0, true, "f")));
  }

  lemma OneTicketOpen()
    ensures After(TO_TICKET) == TWICE.(tickets := [Ticket(false, 0, Open)])
  {
    OneTried();
    AfterAppend(TRIED, Restatus(0, Trialed));
    assert After(TRIED + [Restatus(0, Trialed)]) == TWICE.(proposals := [Proposal("p", Trialed)], tickets := []);
    AfterAppend(TRIED + [Restatus(0, Trialed)], RequestAdopt(0));
  }

  lemma TwoTicketsOpen()
    ensures After(TO_TICKET + [Restatus(0, Trialed)] + [RequestAdopt(0)]) == TWICE
  {
    OneTicketOpen();
    AfterAppend(TO_TICKET, Restatus(0, Trialed));
    AfterAppend(TO_TICKET + [Restatus(0, Trialed)], RequestAdopt(0));
  }

  lemma LateTicket() returns (m: Graph)
    ensures m == Processed(TWICE, 0, LATE).0 && Forks(m)
    ensures |m.tickets| == 2 && m.tickets[1] == Ticket(false, 0, Open)
    ensures LatestFork(m.trials, 0) == Some("f") && Refusal(m, 0, CLEAN).None? && m.proposals[0].pack == "p"
    ensures |m.promotions| == 1 && m.promotions[0].pack == "p" && FirstLoading(m.promotions, "f") == Some(0)
  {
    assert LatestFork(TWICE.trials, 0) == Some("f");
    m := Adopted(TWICE, 0, LATE).0;
    assert m.promotions == [Promotion(0, "p", "f", Loading, None)] && m.trials == TWICE.trials;
    assert m.trials[0].proposal == 0;
  }

  /** The second ticket of the sweep, from the graph the first one leaves. */
  lemma LateAdopted(m: Graph)
    requires Forks(m) && |m.tickets| == 2 && m.tickets[1] == Ticket(false, 0, Open)
    requires LatestFork(m.trials, 0) == Some("f") && Refusal(m, 0, CLEAN).None? && m.proposals[0].pack == "p"
    requires |m.promotions| == 1 && m.promotions[0].pack == "p" && FirstLoading(m.promotions, "f") == Some(0)
    ensures var h := Processed(m, 1, CLEAN).0;
            |h.promotions| == 2 && h.promotions[0].status == Disabled && h.promotions[1].status == Loading &&
                "p" in h.running
  {
    ForksOwned(m, 0);
    AdoptedPromotions(m, 1, CLEAN);
  }

  lemma BothOpen(tickets: seq<Ticket>)
    requires |tickets| == 2 && tickets[0].status == tickets[1].status == Open
    ensures OpenTickets(tickets, 2) == [0, 1]
  {
    assert OpenTickets(tickets, 1) == [0];
  }

  lemma SweptOneMore(g: Graph, todo: seq<nat>, answers: seq<Answers>, k: nat)
    requires k < |todo| == |answers| && forall j :: 0 <= j < |todo| ==> todo[j] < |g.tickets|
    ensures SweptUpTo(g, todo, answers, k + 1) == Processed(SweptUpTo(g, todo, answers, k), todo[k], answers[k]).0
  {
  }

  lemma LateSweep() returns (h: Graph)
    ensures h == SweptUpTo(TWICE, [0, 1], [LATE, CLEAN], 2)
    ensures |h.promotions| == 2 && h.promotions[0].status == Disabled && h.promotions[1].status == Loading &&
            "p" in h.running
  {
    var todo: seq<nat>, answers := [0, 1], [LATE, CLEAN];
    SweptOneMore(TWICE, todo, answers, 0);
    var m := LateTicket();
    LateAdopted(m);
    SweptOneMore(TWICE, todo, answers, 1);
    h := Processed(m, 1, CLEAN).0;
  }

  /** Two tickets for one proposal, whose status was set back to trialed in between, in one sweep:
      the first promote fails late and leaves its promotion loading, the second succeeds, the
      recorder flips the first, and supersession disables it.  The pack is loaded and no promotion
      of it is active. */
  lemma LateConflictExample() returns (h: Graph)
    ensures h == After(TO_TICKET + [Restatus(0, Trialed)] + [RequestAdopt(0)] + [Sweep([LATE, CLEAN])])
    ensures |h.promotions| == 2 && h.promotions[0].status == Disabled && h.promotions[1].status == Loading &&
            "p" in h.running
  {
    var sweep := Sweep([LATE, CLEAN]);
    TwoTicketsOpen();
    AfterAppend(TO_TICKET + [Restatus(0, Trialed)] + [RequestAdopt(0)], sweep);
    BothOpen(TWICE.tickets);
    h := LateSweep();
  }

  const FIRST := Graph([Proposal("p", ProposalStatus.Promoted)], [Trial(0, true, "f")],
                       [Promotion(0, "p", "f", Active, None)], [],
                       [Ticket(false, 0, TicketStatus.Done)], {"f"}, map["p" := 0])

  lemma RecordedFirst(g: Graph)
    requires g.promotions == [Promotion(0, "p", "f", Loading, None)] && g.proposals == [Proposal("p", Adopting)]
    ensures Recorded(g, "f") == g.(promotions := FIRST.promotions, proposals := FIRST.proposals)
  {
    assert g.promotions[..0] == [] && FirstLoading([], "f").None?;
    assert FirstLoading(g.promotions, "f") == Some(0);
  }

  lemma AdoptedFirst(g: Graph)
    requires g == TWICE.(tickets := [Ticket(false, 0, Open)])
    ensures Adopted(g, 0, CLEAN).0 == FIRST
  {
    assert LatestFork(g.trials, 0) == Some("f");
    assert Adopted(g, 0, CLEAN).0 == Settled(g, 0, 0);
    SettledFirst(g);
  }

  lemma SettledFirst(g: Graph)
    requires g == TWICE.(tickets := [Ticket(false, 0, Open)]) && LatestFork(g.trials, 0) == Some("f")
    ensures Settled(g, 0, 0) == FIRST
  {
    var l := Loaded(g, 0);
    assert l.promotions == [Promotion(0, "p", "f", Loading, None)];
    RecordedFirst(Applied(g, 0, 0));
    assert Superseded(FIRST.promotions, "p", 0) == FIRST.promotions;
  }

  /** A sweep over a single open ticket is the processing of that ticket. */
  lemma SweepOne(g: Graph, i: nat, a: Answers)
    requires OpenTickets(g.tickets, |g.tickets|) == [i]
    ensures Act(g, Sweep([a])) == Processed(g, i, a).0
  {
    var todo := OpenTickets(g.tickets, |g.tickets|);
    assert SweptUpTo(g, todo, [a], 0) == g;
    assert SweptUpTo(g, todo, [a], 1) == Processed(SweptUpTo(g, todo, [a], 0), todo[0], [a][0]).0;
  }

  lemma FirstAdopted()
    ensures After(TO_TICKET + [Sweep([CLEAN])]) == FIRST
  {
    var g := TWICE.(tickets := [Ticket(false, 0, Open)]);
    OneTicketOpen();
    AfterAppend(TO_TICKET, Sweep([CLEAN]));
    assert OpenTickets(g.tickets, 0) == [] && OpenTickets(g.tickets, 1) == [0];
    SweepOne(g, 0, CLEAN);
    AdoptedFirst(g);
  }

  const UPDATED := FIRST.(proposals := [Proposal("p", ProposalStatus.Promoted), Proposal("p", Adopting)],
                          trials := [Trial(0, true, "f"), Trial(1, true, "g")],
                          tickets := [Ticket(false, 0, TicketStatus.Done), Ticket(false, 1, Open)])

  /** The first adoption, and a ticket for a second proposal of the same pack. */
  function ToUpdate(): seq<Action> {
    TO_TICKET + [Sweep([CLEAN])] + [Propose("p")] + [Try(Trial(1, true, "g"))] + [Restatus(1, Trialed)] +
        [RequestAdopt(1)]
  }

  lemma UpdateRequested()
    ensures After(ToUpdate()) == UPDATED
  {
    var r := TO_TICKET + [Sweep([CLEAN])];
    FirstAdopted();
    AfterAppend(r, Propose("p"));
    AfterAppend(r + [Propose("p")], Try(Trial(1, true, "g")));
    assert FreshFork(After(r + [Propose("p")]), Trial(1, true, "g")) by { assert "g"[0] != "f"[0]; }
    AfterAppend(r + [Propose("p")] + [Try(Trial(1, true, "g"))], Restatus(1, Trialed));
    AfterAppend(r + [Propose("p")] + [Try(Trial(1, true, "g"))] + [Restatus(1, Trialed)], RequestAdopt(1));
  }

  const SECOND := UPDATED.(proposals := FIRST.proposals + [Proposal("p", ProposalStatus.Promoted)],
                           promotions := [Promotion(0, "p", "f", PromotionStatus.Disabled, Some(1)),
                                          Promotion(1, "p", "g", Active, None)],
                           tickets := [Ticket(false, 0, TicketStatus.Done), Ticket(false, 1, TicketStatus.Done)],
                           applied := {"f", "g"}, running := map["p" := 1])

  const LATER := UPDATED.(promotions := [Promotion(0, "p", "f", Active, None), Promotion(1, "p", "g", Loading, None)],
                          running := map["p" := 1])

  lemma LoadedSecond()
    ensures LatestFork(UPDATED.trials, 1) == Some("g") && Loaded(UPDATED, 1) == LATER
  {
    assert UPDATED.trials[1] == Trial(1, true, "g");
    assert Loaded(UPDATED, 1).promotions == LATER.promotions && UPDATED.running["p" := 1] == map["p" := 1];
  }

  lemma SecondIsLoading()
    ensures FirstLoading(LATER.promotions, "g") == Some(1)
  {
    var init := LATER.promotions[..1];
    assert init == [Promotion(0, "p", "f", Active, None)] && init[..0] == [] && FirstLoading([], "g").None?;
    assert FirstLoading(init, "g").None?;
  }

  lemma RecordedSecond(g: Graph)
    requires g.promotions == LATER.promotions && g.proposals == UPDATED.proposals
    ensures Recorded(g, "g") ==
            g.(promotions := [Promotion(0, "p", "f", Active, None), Promotion(1, "p", "g", Active, None)],
               proposals := SECOND.proposals)
  {
    SecondIsLoading();
  }

  lemma AdoptedSecond()
    ensures Adopted(UPDATED, 1, CLEAN).0 == SECOND
  {
    LoadedSecond();
    assert UPDATED.applied + {"g"} == {"f", "g"};
    RecordedSecond(Applied(UPDATED, 1, 1));
    assert Superseded([Promotion(0, "p", "f", Active, None), Promotion(1, "p", "g", Active, None)], "p", 1) ==
           SECOND.promotions;
  }

  lemma OnlyUpdateOpen()
    ensures OpenTickets(UPDATED.tickets, 2) == [1]
  {
    assert OpenTickets(UPDATED.tickets, 0) == [] && OpenTickets(UPDATED.tickets, 1) == [];
  }

  lemma SecondAdopted()
    ensures After(ToUpdate() + [Sweep([CLEAN])]) == SECOND
  {
    UpdateRequested();
    AfterAppend(ToUpdate(), Sweep([CLEAN]));
    OnlyUpdateOpen();
    SweepOne(UPDATED, 1, CLEAN);
    AdoptedSecond();
  }

  const DISABLING := SECOND.(tickets := SECOND.tickets + [Ticket(true, 0, Open)])

  lemma DisableRequested()
    ensures After(ToUpdate() + [Sweep([CLEAN])] + [RequestDisable(0)]) == DISABLING
  {
    SecondAdopted();
    AfterAppend(ToUpdate() + [Sweep([CLEAN])], RequestDisable(0));
  }

  lemma OnlyDisableOpen()
    ensures OpenTickets(DISABLING.tickets, 3) == [2]
  {
    assert OpenTickets(DISABLING.tickets, 0) == [] && OpenTickets(DISABLING.tickets, 1) == [];
    assert OpenTickets(DISABLING.tickets, 2) == [];
  }

  lemma LivePackGone(h: Graph)
    requires h == Disabling(DISABLING, 2, CLEAN).0
    ensures IsActive(h, 1) && h.promotions[1].pack == "p" && h.running == map[] && !Agrees(h)
  {
    assert h.promotions[1] == SECOND.promotions[1] && h.running == map["p" := 1] - {"p"} == map[];
  }

  /** A pack is adopted twice, under two proposals, and then the first promotion, which the second
      has superseded, is disabled: the pack of the live promotion is no longer loaded. */
  lemma LivePackExample() returns (h: Graph)
    ensures h == After(ToUpdate() + [Sweep([CLEAN])] + [RequestDisable(0)] + [Sweep([CLEAN])])
    ensures IsActive(h, 1) && h.promotions[1].pack == "p" && h.running == map[] && !Agrees(h)
  {
    DisableRequested();
    AfterAppend(ToUpdate() + [Sweep([CLEAN])] + [RequestDisable(0)], Sweep([CLEAN]));
    OnlyDisableOpen();
    SweepOne(DISABLING, 2, CLEAN);
    h := Disabling(DISABLING, 2, CLEAN).0;
    LivePackGone(h);
  }

  lemma LateSecond() returns (g: Graph)
    ensures g == Adopted(UPDATED, 1, LATE).0 && g.promotions == LATER.promotions
    ensures g.applied == {"f"} && g.running == map["p" := 1]
  {
    LoadedSecond();
    g := Adopted(UPDATED, 1, LATE).0;
  }

  /** A pack is adopted and an update of it aborts late: the first promotion is still the active one,
      and the runtime runs the bundle of the aborted update. */
  lemma LateUpdateExample() returns (h: Graph)
    ensures h == After(ToUpdate() + [Sweep([LATE])]) && h.promotions == LATER.promotions && h.applied == {"f"}
    ensures IsActive(h, 0) && h.promotions[0].proposal == 0 && h.running == map["p" := 1] && !Agrees(h)
  {
    UpdateRequested();
    AfterAppend(ToUpdate(), Sweep([LATE]));
    OnlyUpdateOpen();
    SweepOne(UPDATED, 1, LATE);
    h := LateSecond();
    assert IsActive(h, 0) && !Runs(h, h.promotions[0]);
  }

  lemma FirstShadowed(g: Graph)
    requires g.promotions == LATER.promotions && g.applied == {"f"}
    ensures Shadowed(HealedAll(g.promotions, g.applied), 0) &&
            HealedAll(g.promotions, g.applied)[1].status == PromotionStatus.Disabled
  {
    var ms := HealedAll(g.promotions, {"f"});
    assert "g" !in {"f"} by { assert "g"[0] != "f"[0]; }
    assert ms[0] == Promotion(0, "p", "f", Active, None) &&
           ms[1] == Promotion(1, "p", "g", PromotionStatus.Disabled, None);
    assert ActiveOf(ms, 0, "p") && !ActiveOf(ms, 1, "p");
    assert ms[1].pack == ms[0].pack;
  }

  /** A boot that finds an active promotion and a later one that is loading for good leaves the
      active one down. */
  lemma FirstStaysDown(g: Graph) returns (h: Graph)
    requires Forks(g) && g.promotions == LATER.promotions && g.applied == {"f"}
    ensures h == Rebooted(g, {"p"}) && IsActive(h, 0) && !Agrees(h)
  {
    FirstShadowed(g);
    BootAgreesIff(g, {"p"});
    h := Rebooted(g, {"p"});
  }

  /** After that abort the process restarts: the promotion stays active, the late one is parked, and
      because it is the later one nothing is loaded. */
  lemma FailedUpdateExample() returns (h: Graph)
    ensures h == After(ToUpdate() + [Sweep([LATE])] + [Boot({"p"})])
    ensures IsActive(h, 0) && !Agrees(h)
  {
    AfterAppend(ToUpdate() + [Sweep([LATE])], Boot({"p"}));
    var g := LateUpdateExample();
    RunSafe(ToUpdate() + [Sweep([LATE])]);
    h := FirstStaysDown(g);
  }

  // ----- the process dies inside the update

  /** Dying in the sweep's only ticket. */
  lemma DiedInOne(g: Graph, i: nat, a: Answers, n: nat, intact: set<string>)
    requires i < |g.tickets| && OpenTickets(g.tickets, |g.tickets|) == [i]
    ensures Act(g, DieSweeping([a], n, intact)) == Died(g, i, a, n, intact)
  {
    var todo := OpenTickets(g.tickets, |g.tickets|);
    assert SweptUpTo(g, todo[..0], [a][..0], 0) == g && todo[0] == i;
  }

  lemma DiedInUpdate(n: nat)
    ensures After(ToUpdate() + [DieSweeping([CLEAN], n, {"p"})]) == Died(UPDATED, 1, CLEAN, n, {"p"})
  {
    OnlyUpdateOpen();
    DiedInOne(UPDATED, 1, CLEAN, n, {"p"});
    var g := After(ToUpdate());
    assert g == UPDATED by { UpdateRequested(); }
    AfterAppend(ToUpdate(), DieSweeping([CLEAN], n, {"p"}));
  }

  lemma UpdateWrites() returns (sup: seq<Write>)
    ensures Writes(UPDATED, 1, CLEAN) == PromotionWrites(UPDATED, 1, 1) + sup && |PromotionWrites(UPDATED, 1, 1)| == 9
  {
    LoadedSecond();
    SecondIsLoading();
    assert UPDATED.promotions + [Made(UPDATED, 1)] == LATER.promotions;
    SupersessionsLast(UPDATED, 1, CLEAN);
    sup := SupersedeWrites(Flipped(LATER.promotions, "g"), "p", 1, 2);
  }

  /** Between the recorder and the supersession two promotions of the pack are active. */
  lemma TwoActive() returns (h: Graph)
    ensures h == Partial(UPDATED, 1, CLEAN, 9) && !OneActive(h)
    ensures h.promotions == [Promotion(0, "p", "f", Active, None), Promotion(1, "p", "g", Active, None)]
  {
    var sup := UpdateWrites();
    LoadedSecond();
    PromotionApplied(UPDATED, 1, 1);
    RecordedSecond(Applied(UPDATED, 1, 1));
    var ws := Writes(UPDATED, 1, CLEAN);
    assert ws[..9] == PromotionWrites(UPDATED, 1, 1);
    h := ApplyAll(UPDATED, ws[..9]);
    assert IsActive(h, 0) && IsActive(h, 1);
  }

  /** The process dies there: the boot supersedes the older promotion. */
  lemma TwoActiveExample() returns (h: Graph)
    ensures h == After(ToUpdate() + [DieSweeping([CLEAN], 9, {"p"})])
    ensures !IsActive(h, 0) && IsActive(h, 1) && |h.promotions| == 2
  {
    DiedInUpdate(9);
    var g := TwoActive();
    h := Rebooted(g, {"p"});
    var ms := HealedAll(g.promotions, g.applied);
    assert ActiveOf(ms, 0, "p") && ActiveOf(ms, 1, "p") && LastActive(ms, "p") == Some(1);
    assert Survives(ms, 1) && !Survives(ms, 0);
  }

  lemma JustLoaded() returns (h: Graph)
    ensures h == Partial(UPDATED, 1, CLEAN, 5) && h.promotions == LATER.promotions && h.applied == {"f"}
  {
    LoadedSecond();
    PassedWrites(UPDATED, 1, CLEAN);
    assert Writes(UPDATED, 1, CLEAN)[..5] == FirstFive(UPDATED, 1);
    FiveApplied(UPDATED, 1);
    h := WithProposal(LATER, 1, Adopting);
  }

  /** The process dies right after the update was loaded: its promotion is parked, and the live one
      stays down until the ticket is processed again. */
  lemma InterruptedUpdateExample() returns (h: Graph)
    ensures h == After(ToUpdate() + [DieSweeping([CLEAN], 5, {"p"})]) && IsActive(h, 0) && !Agrees(h)
  {
    DiedInUpdate(5);
    UpdateRequested();
    RunSafe(ToUpdate());
    PartialSound(UPDATED, 1, CLEAN, 5);
    var g := JustLoaded();
    h := FirstStaysDown(g);
  }
}
