/** Whether the bundles the runtime runs are those of the active promotions (packs/evolution/adopt.py
    and boot.py).  A bundle is its proposal's: what is loaded is pinned to the proposal's hash. */
module RunningPacks {
  import opened Prelude
  import opened Adoption
  import opened AdoptionSafety
  import opened AdoptionBoot
  import opened AdoptionDeaths

  /** The runtime holds the promotion's own bundle under its pack name. */
  predicate Runs(g: Graph, m: Promotion) { m.pack in g.running && g.running[m.pack] == m.proposal }

  ghost predicate Agrees(g: Graph) { forall q: nat :: IsActive(g, q) ==> Runs(g, g.promotions[q]) }

  /** An active promotion of the proposal's pack that was made for another proposal. */
  predicate LiveUnder(g: Graph, p: nat, q: nat)
    requires p < |g.proposals|
  {
    IsActive(g, q) && g.promotions[q].pack == g.proposals[p].pack && g.promotions[q].proposal != p
  }

  /** An adopt ticket keeps the agreement if and only if it is not an update that aborts late: then
      the pack of the live promotion is running the aborted bundle, as nothing unloads it. */
  lemma AdoptedAgreesIff(g: Graph, i: nat, a: Answers)
    requires Safe(g) && Agrees(g) && i < |g.tickets| && !g.tickets[i].disables
    ensures var p := g.tickets[i].target;
            Agrees(Adopted(g, i, a).0) <==>
            !(Refusal(g, p, a).None? && !a.promotes && exists q: nat :: LiveUnder(g, p, q))
  {
    var p := g.tickets[i].target;
    if Refusal(g, p, a).Some? {
      assert forall q: nat :: IsActive(Adopted(g, i, a).0, q) <==> IsActive(g, q);
    } else if a.promotes {
      PromotedAgrees(g, i, a);
    } else {
      LateAgreesIff(g, i, a);
    }
  }

  lemma PromotedAgrees(g: Graph, i: nat, a: Answers)
    requires Safe(g) && Agrees(g) && i < |g.tickets| && !g.tickets[i].disables
    requires Refusal(g, g.tickets[i].target, a).None? && a.promotes
    ensures Agrees(Adopted(g, i, a).0)
  {
    var p, h := g.tickets[i].target, Adopted(g, i, a).0;
    ForksOwned(g, p);
    AdoptedPromotions(g, i, a);
    assert h.running == g.running[g.proposals[p].pack := p];
    AgreesAfter(g, p, h);
  }

  lemma AgreesAfter(g: Graph, p: nat, h: Graph)
    requires p < |g.proposals| && HasFork(g, p) && OwnFork(g, p) && Agrees(g)
    requires AdoptedList(g.promotions, h.promotions, Made(g, p), FirstLoading(g.promotions, Made(g, p).fork))
    requires h.running == g.running[g.proposals[p].pack := p]
    ensures Agrees(h)
  {
    forall q: nat | IsActive(h, q) ensures Runs(h, h.promotions[q]) {
      if q < |g.promotions| { assert IsActive(g, q); }
    }
  }

  lemma LateAgreesIff(g: Graph, i: nat, a: Answers)
    requires Agrees(g) && i < |g.tickets| && !g.tickets[i].disables
    requires Refusal(g, g.tickets[i].target, a).None? && !a.promotes
    ensures Agrees(Adopted(g, i, a).0) <==> !exists q: nat :: LiveUnder(g, g.tickets[i].target, q)
  {
    var p, h := g.tickets[i].target, Adopted(g, i, a).0;
    assert h.running == g.running[g.proposals[p].pack := p];
    assert forall q: nat :: IsActive(h, q) <==> IsActive(g, q);
    if q: nat :| LiveUnder(g, p, q) { assert IsActive(h, q) && !Runs(h, h.promotions[q]); }
    forall q: nat | IsActive(h, q) ensures LiveUnder(g, p, q) || Runs(h, h.promotions[q]) {
      assert IsActive(g, q) && Runs(g, g.promotions[q]);
    }
  }

  /** A disable ticket keeps the agreement if and only if it does not deregister a pack that another
      promotion is active for: deregistration is by pack name, and a promotion that was only
      superseded can still be rolled back. */
  lemma DisablingAgreesIff(g: Graph, i: nat, a: Answers)
    requires Agrees(g) && i < |g.tickets|
    ensures var q := g.tickets[i].target;
            Agrees(Disabling(g, i, a).0) <==>
            !(CanRollBack(g, q) && a.deregisters &&
              exists r: nat :: r != q && IsActive(g, r) && g.promotions[r].pack == g.promotions[q].pack)
  {
    var q, h := g.tickets[i].target, Disabling(g, i, a).0;
    if CanRollBack(g, q) {
      assert forall r: nat :: IsActive(h, r) <==> r != q && IsActive(g, r);
      if r: nat :| r != q && IsActive(g, r) && g.promotions[r].pack == g.promotions[q].pack {
        assert IsActive(h, r) && h.promotions[r].pack == g.promotions[q].pack;
      }
    } else {
      assert forall r: nat :: IsActive(h, r) <==> IsActive(g, r);
    }
  }

  // ----- after boot

  /** The only active promotion of its pack. */
  ghost predicate SoleActive(ms: seq<Promotion>, q: nat) {
    q < |ms| && ms[q].status == Active && forall r: nat :: ActiveOf(ms, r, ms[q].pack) ==> r == q
  }

  /** It has a later promotion of its pack, which is not active. */
  ghost predicate Shadowed(ms: seq<Promotion>, q: nat) { SoleActive(ms, q) && HasLater(ms, q) }

  ghost predicate NoneShadowed(ms: seq<Promotion>) { forall q: nat :: !Shadowed(ms, q) }

  lemma SoleSurvives(ms: seq<Promotion>, q: nat)
    ensures SoleActive(ms, q) <==> Survives(ms, q) && !HasRival(ms, q)
  {
    if q < |ms| && ms[q].status == Active { assert ActiveOf(ms, q, ms[q].pack); }
  }

  lemma {:induction false} ReloadedHolds(ms: seq<Promotion>, count: nat, intact: set<string>, n: nat, pack: string)
    requires n <= |ms|
    ensures pack in ReloadedUpTo(ms, count, intact, n) <==>
            exists q :: 0 <= q < n && Reloads(ms, count, q) && ms[q].pack == pack && pack in intact
    ensures forall q :: 0 <= q < n && Reloads(ms, count, q) && ms[q].pack == pack && pack in intact ==>
              ReloadedUpTo(ms, count, intact, n)[pack] == ms[q].proposal
  {
    if n == 0 {
    } else {
      ReloadedHolds(ms, count, intact, n - 1, pack);
    }
  }

  /** After boot the runtime runs the bundle of every active promotion if and only if none was
      shadowed: a parked or disabled later promotion keeps an active one down. */
  lemma BootAgreesIff(g: Graph, intact: set<string>)
    requires Forks(g)
    ensures Agrees(Rebooted(g, intact)) <==> NoneShadowed(HealedAll(g.promotions, g.applied))
  {
    var ms, h := HealedAll(g.promotions, g.applied), Rebooted(g, intact);
    forall q: nat | q < |ms| ensures ms[q].proposal < |g.proposals| { assert FromTrial(g, g.promotions[q]); }
    if q: nat :| Shadowed(ms, q) {
      SoleSurvives(ms, q);
      ReloadedHolds(ms, |g.proposals|, intact, |ms|, ms[q].pack);
      assert IsActive(h, q) && h.promotions[q].pack == ms[q].pack;
    } else {
      forall q: nat | IsActive(h, q) ensures Runs(h, h.promotions[q]) {
        SoleSurvives(ms, q);
        assert Survives(ms, q) && !Shadowed(ms, q);
        assert Reloads(ms, |g.proposals|, q);
        ReloadedHolds(ms, |g.proposals|, intact, |ms|, ms[q].pack);
      }
    }
  }

  // ----- after a death inside an adopt ticket

  /** A later promotion that is not active shadows the sole active one of its pack, and no other. */
  lemma ParkedShadows(ms: seq<Promotion>, m: Promotion)
    requires NoneShadowed(ms) && m.status == PromotionStatus.Disabled
    ensures NoneShadowed(ms + [m]) <==> !exists q: nat :: SoleActive(ms, q) && ms[q].pack == m.pack
  {
    var next := ms + [m];
    forall r: nat, pack: string ensures ActiveOf(next, r, pack) <==> ActiveOf(ms, r, pack) {
    }
    forall q: nat ensures SoleActive(next, q) <==> SoleActive(ms, q) {
    }
    if q: nat :| SoleActive(ms, q) && ms[q].pack == m.pack {
      assert next[|ms|].pack == next[q].pack && HasLater(next, q);
      assert Shadowed(next, q);
    }
    forall q: nat | SoleActive(ms, q) ensures HasLater(next, q) ==> ms[q].pack == m.pack {
      assert !Shadowed(ms, q);
      if r: nat :| q < r < |next| && next[r].pack == next[q].pack { assert r < |ms| ==> HasLater(ms, q); }
    }
  }

  /** Outside the pack of the last promotion, which is active, nothing has changed. */
  ghost predicate Outshines(ms: seq<Promotion>, next: seq<Promotion>, pack: string) {
    && |next| == |ms| + 1 && ActiveOf(next, |ms|, pack)
    && forall q :: 0 <= q < |ms| ==> next[q].pack == ms[q].pack && (ms[q].pack != pack ==> next[q] == ms[q])
  }

  lemma LastActiveOutshines(ms: seq<Promotion>, next: seq<Promotion>, pack: string)
    requires NoneShadowed(ms) && Outshines(ms, next, pack)
    ensures NoneShadowed(next)
  {
    forall q: nat | SoleActive(next, q) ensures !HasLater(next, q) {
      if next[q].pack == pack {
        assert q == |ms|;
      } else {
        forall r: nat ensures ActiveOf(next, r, next[q].pack) <==> ActiveOf(ms, r, next[q].pack) {
        }
        assert SoleActive(ms, q) && !Shadowed(ms, q);
        if r: nat :| q < r < |next| && next[r].pack == next[q].pack { assert HasLater(ms, q); }
      }
    }
  }

  lemma HealedCommitted(g: Graph, p: nat, h: Graph)
    requires p < |g.proposals| && HasFork(g, p) && OwnFork(g, p) && Committed(g, p, h)
    ensures Outshines(HealedAll(g.promotions, g.applied), HealedAll(h.promotions, h.applied), g.proposals[p].pack)
  {
    var ms, next := HealedAll(g.promotions, g.applied), HealedAll(h.promotions, h.applied);
    forall q | 0 <= q < |ms| && ms[q].pack != g.proposals[p].pack ensures next[q] == ms[q] {
      assert h.promotions[q] == g.promotions[q] && g.promotions[q].fork != Made(g, p).fork;
    }
  }

  lemma HealedRecorded(g: Graph, p: nat)
    requires p < |g.proposals| && HasFork(g, p)
    ensures HealedAll(g.promotions + [Made(g, p)], g.applied) ==
            HealedAll(g.promotions, g.applied) + [Healed(Made(g, p), g.applied)]
  {
  }

  /** The new promotion is recorded, no marker says that its fork was promoted, and its pack has a
      sole active promotion, or one that boot makes so. */
  ghost predicate LeavesDown(g: Graph, h: Graph) {
    var ms, n := HealedAll(g.promotions, g.applied), |g.promotions|;
    && n < |h.promotions| && h.promotions[n].fork !in h.applied
    && exists q: nat :: SoleActive(ms, q) && ms[q].pack == h.promotions[n].pack
  }

  /** The process dies inside an adopt ticket, and a boot before the ticket would have restored the
      agreement: the boot after the death does, unless the ticket had recorded its promotion without
      its marker and the pack has a sole active promotion, which then stays down. */
  lemma DeathAgreesIff(g: Graph, i: nat, a: Answers, n: nat, intact: set<string>)
    requires Sound(g) && Agrees(Rebooted(g, intact)) && i < |g.tickets| && !g.tickets[i].disables
    ensures Agrees(Died(g, i, a, n, intact)) <==> !LeavesDown(g, Partial(g, i, a, n))
  {
    var h := Partial(g, i, a, n);
    assert Forks(h) by { PartialSound(g, i, a, n); }
    BootAgreesIff(g, intact);
    BootAgreesIff(h, intact);
    AdoptStages(g, i, a, n);
    if !Untouched(g, h) {
      ForksOwned(g, g.tickets[i].target);
      StagedAgrees(g, g.tickets[i].target, h);
    }
  }

  lemma StagedAgrees(g: Graph, p: nat, h: Graph)
    requires p < |g.proposals| && HasFork(g, p) && OwnFork(g, p) && (JustRecorded(g, p, h) || Committed(g, p, h))
    requires NoneShadowed(HealedAll(g.promotions, g.applied))
    ensures NoneShadowed(HealedAll(h.promotions, h.applied)) <==> !LeavesDown(g, h)
  {
    var ms, made := HealedAll(g.promotions, g.applied), Made(g, p);
    if Committed(g, p, h) {
      HealedCommitted(g, p, h);
      LastActiveOutshines(ms, HealedAll(h.promotions, h.applied), made.pack);
    } else {
      HealedRecorded(g, p);
      if made.fork in g.applied {
        LastActiveOutshines(ms, ms + [Healed(made, g.applied)], made.pack);
      } else {
        ParkedShadows(ms, Healed(made, g.applied));
      }
    }
  }
}
