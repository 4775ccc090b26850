/** What every step of the adoption processor keeps, and what every prefix of its writes keeps
    (packs/evolution/adopt.py). */
module AdoptionSafety {
  import opened Prelude
  import opened Adoption

  predicate IsActive(g: Graph, q: nat) { q < |g.promotions| && g.promotions[q].status == Active }

  /** At most one active promotion a pack name. */
  ghost predicate OneActive(g: Graph) {
    forall q, r :: 0 <= q < r && IsActive(g, q) && IsActive(g, r) ==> g.promotions[q].pack != g.promotions[r].pack
  }

  /** A non-empty fork id belongs to one proposal; a promotion's pack is its proposal's. */
  ghost predicate Forks(g: Graph) {
    && (forall s, t :: 0 <= s < t < |g.trials| && g.trials[s].fork == g.trials[t].fork != "" ==>
          g.trials[s].proposal == g.trials[t].proposal)
    && (forall q :: 0 <= q < |g.promotions| ==> FromTrial(g, g.promotions[q]))
  }

  ghost predicate FromTrial(g: Graph, m: Promotion) {
    && m.proposal < |g.proposals| && m.pack == g.proposals[m.proposal].pack
    && exists t :: 0 <= t < |g.trials| && g.trials[t].proposal == m.proposal && g.trials[t].fork == m.fork
  }

  /** At most one rollback a promotion, and a rolled-back promotion is disabled. */
  ghost predicate Rollbacks(g: Graph) {
    && (forall r :: 0 <= r < |g.rollbacks| ==>
          g.rollbacks[r].promotion < |g.promotions| && g.promotions[g.rollbacks[r].promotion].status == Disabled)
    && (forall r, s :: 0 <= r < s < |g.rollbacks| ==> g.rollbacks[r].promotion != g.rollbacks[s].promotion)
  }

  /** What holds even of the graph a dying process leaves. */
  ghost predicate Sound(g: Graph) { Forks(g) && Rollbacks(g) }

  ghost predicate Safe(g: Graph) { OneActive(g) && Sound(g) }

  lemma {:induction false} LatestForkIsTrial(trials: seq<Trial>, p: nat) returns (t: nat)
    requires LatestFork(trials, p).Some?
    ensures t < |trials| && trials[t].proposal == p && trials[t].fork == LatestFork(trials, p).value
  {
    if trials[|trials| - 1].proposal == p && trials[|trials| - 1].passed {
      t := |trials| - 1;
    } else {
      t := LatestForkIsTrial(trials[..|trials| - 1], p);
    }
  }

  /** A step that keeps trials, and packs of proposals, and only appends or restatuses promotions. */
  ghost predicate Evolves(g: Graph, h: Graph) {
    && h.trials == g.trials && |h.proposals| == |g.proposals|
    && (forall p :: 0 <= p < |g.proposals| ==> h.proposals[p].pack == g.proposals[p].pack)
    && |g.promotions| <= |h.promotions|
    && (forall q :: 0 <= q < |g.promotions| ==> SameSubject(g.promotions[q], h.promotions[q]))
    && (forall q :: 0 <= q < |g.promotions| && g.promotions[q].status == Disabled ==>
          h.promotions[q].status == Disabled)
  }

  predicate SameSubject(m: Promotion, n: Promotion) { m.proposal == n.proposal && m.pack == n.pack && m.fork == n.fork }

  lemma EvolvesOn(g: Graph, m: Graph, h: Graph)
    requires Evolves(g, m) && Evolves(m, h)
    ensures Evolves(g, h)
  {
  }

  lemma ForksKept(g: Graph, h: Graph)
    requires Forks(g) && Evolves(g, h)
    requires forall q :: |g.promotions| <= q < |h.promotions| ==> FromTrial(h, h.promotions[q])
    ensures Forks(h)
  {
    forall q | 0 <= q < |h.promotions| ensures FromTrial(h, h.promotions[q]) {
      if q < |g.promotions| { assert FromTrial(g, g.promotions[q]) && SameSubject(g.promotions[q], h.promotions[q]); }
    }
  }

  lemma RollbacksKept(g: Graph, h: Graph)
    requires Rollbacks(g) && Evolves(g, h) && h.rollbacks == g.rollbacks
    ensures Rollbacks(h)
  {
  }

  /** The recorder's choice: a promotion of the very proposal, hence of its pack. */
  lemma RecorderStaysOnProposal(g: Graph, p: nat, q: nat)
    requires Forks(g) && p < |g.proposals| && HasFork(g, p)
    requires FirstLoading(Loaded(g, p).promotions, LatestFork(g.trials, p).value) == Some(q)
    ensures q <= |g.promotions|
    ensures var m := Loaded(g, p).promotions[q]; m.proposal == p && m.pack == g.proposals[p].pack
  {
    if q < |g.promotions| { OwnPack(g, p, q); }
  }

  /** The promotions once `made` is appended, recorded and has superseded its pack's active ones. */
  ghost predicate AdoptedList(before: seq<Promotion>, after: seq<Promotion>, made: Promotion, first: Option<nat>) {
    var n := |before|;
    && |after| == n + 1 && SameSubject(after[n], made)
    && after[n].status == (if first.None? then Active else Loading)
    && forall k :: 0 <= k < n ==>
         SameSubject(before[k], after[k]) &&
         after[k].status ==
           if before[k].pack == made.pack && (before[k].status == Active || first == Some(k))
           then Disabled else before[k].status
  }

  lemma FlippedAppend(before: seq<Promotion>, made: Promotion)
    requires made.status == Loading && made.fork != ""
    ensures var first := FirstLoading(before, made.fork);
            Flipped(before + [made], made.fork) ==
              if first.None? then before + [made.(status := Active)]
              else before[first.value := before[first.value].(status := Active)] + [made]
  {
    assert (before + [made])[..|before|] == before;
  }

  lemma SupersededList(before: seq<Promotion>, flipped: seq<Promotion>, made: Promotion, first: Option<nat>)
    requires made.status == Loading
    requires first.Some? ==> first.value < |before| && before[first.value].status == Loading
    requires first.Some? ==> before[first.value].pack == made.pack
    requires flipped == if first.None? then before + [made.(status := Active)]
                        else before[first.value := before[first.value].(status := Active)] + [made]
    ensures AdoptedList(before, Superseded(flipped, made.pack, |before|), made, first)
  {
  }

  /** The promotions of the proposal's latest fork are of the proposal's pack. */
  ghost predicate OwnFork(g: Graph, p: nat)
    requires p < |g.proposals| && HasFork(g, p)
  {
    var fork := LatestFork(g.trials, p).value;
    forall q :: 0 <= q < |g.promotions| && g.promotions[q].fork == fork ==> g.promotions[q].pack == g.proposals[p].pack
  }

  lemma ForksOwned(g: Graph, p: nat)
    requires Forks(g) && p < |g.proposals| && HasFork(g, p)
    ensures OwnFork(g, p)
  {
    var fork := LatestFork(g.trials, p).value;
    forall q | 0 <= q < |g.promotions| && g.promotions[q].fork == fork
      ensures g.promotions[q].pack == g.proposals[p].pack
    {
      OwnPack(g, p, q);
    }
  }

  /** The promotions after a successful adopt ticket, in closed form. */
  lemma AdoptedPromotions(g: Graph, i: nat, a: Answers)
    requires i < |g.tickets| && !g.tickets[i].disables
    requires Refusal(g, g.tickets[i].target, a).None? && a.promotes && OwnFork(g, g.tickets[i].target)
    ensures var p := g.tickets[i].target;
            AdoptedList(g.promotions, Adopted(g, i, a).0.promotions, Made(g, p),
                        FirstLoading(g.promotions, LatestFork(g.trials, p).value))
  {
    var p := g.tickets[i].target;
    var made, first := Made(g, p), FirstLoading(g.promotions, Made(g, p).fork);
    FlippedAppend(g.promotions, made);
    SupersededList(g.promotions, Flipped(g.promotions + [made], made.fork), made, first);
  }

  /** A promotion of the proposal's latest fork is of the proposal and its pack. */
  lemma OwnPack(g: Graph, p: nat, q: nat)
    requires Forks(g) && p < |g.proposals| && HasFork(g, p)
    requires q < |g.promotions| && g.promotions[q].fork == LatestFork(g.trials, p).value
    ensures g.promotions[q].proposal == p && g.promotions[q].pack == g.proposals[p].pack
  {
    var m := g.promotions[q];
    assert FromTrial(g, m);
    var t := LatestForkIsTrial(g.trials, p);
    var s :| 0 <= s < |g.trials| && g.trials[s].proposal == m.proposal && g.trials[s].fork == m.fork;
    assert s == t || s < t || t < s;
  }

  lemma MadeFromTrial(g: Graph, p: nat)
    requires p < |g.proposals| && LatestFork(g.trials, p).Some?
    ensures FromTrial(g, Made(g, p))
  {
    var t := LatestForkIsTrial(g.trials, p);
  }

  /** An adopt ticket touches no proposal but its own, and that one not when it needs its owner. */
  lemma AdoptTouchesOwnProposal(g: Graph, i: nat, a: Answers, p: nat)
    requires Forks(g) && i < |g.tickets| && !g.tickets[i].disables && p < |g.proposals|
    requires p != g.tickets[i].target || g.proposals[p].status == NeedsOwner
    ensures var h := Adopted(g, i, a).0; p < |h.proposals| && h.proposals[p] == g.proposals[p]
  {
    var target := g.tickets[i].target;
    if Refusal(g, target, a).None? && a.promotes {
      var fork, l := LatestFork(g.trials, target).value, Loaded(g, target);
      if FirstLoading(l.promotions, fork).Some? {
        RecorderStaysOnProposal(g, target, FirstLoading(l.promotions, fork).value);
      }
    }
  }

  lemma AdoptedEvolves(g: Graph, i: nat, a: Answers)
    requires Forks(g) && i < |g.tickets| && !g.tickets[i].disables
    ensures Evolves(g, Adopted(g, i, a).0) && Adopted(g, i, a).0.rollbacks == g.rollbacks
  {
    if Refusal(g, g.tickets[i].target, a).None? && a.promotes {
      ForksOwned(g, g.tickets[i].target);
      AdoptedPromotions(g, i, a);
    }
  }

  lemma AdoptedSafe(g: Graph, i: nat, a: Answers)
    requires Safe(g) && i < |g.tickets| && !g.tickets[i].disables
    ensures Safe(Adopted(g, i, a).0)
  {
    var p, h := g.tickets[i].target, Adopted(g, i, a).0;
    AdoptedEvolves(g, i, a);
    RollbacksKept(g, h);
    if Refusal(g, p, a).None? {
      ForksOwned(g, p);
      if a.promotes { AdoptedPromotions(g, i, a); }
      MadeFromTrial(g, p);
      assert FromTrial(h, h.promotions[|g.promotions|]);
    }
    ForksKept(g, h);
    AdoptedOneActive(g, i, a);
  }

  lemma AdoptedOneActive(g: Graph, i: nat, a: Answers)
    requires OneActive(g) && Forks(g) && i < |g.tickets| && !g.tickets[i].disables
    ensures OneActive(Adopted(g, i, a).0)
  {
    var p, h := g.tickets[i].target, Adopted(g, i, a).0;
    if Refusal(g, p, a).None? && a.promotes {
      ForksOwned(g, p);
      AdoptedPromotions(g, i, a);
    }
    forall q, r | 0 <= q < r && IsActive(h, q) && IsActive(h, r) ensures h.promotions[q].pack != h.promotions[r].pack {
      assert IsActive(g, q);
      assert r < |g.promotions| ==> IsActive(g, r);
    }
  }

  lemma DisablingEvolves(g: Graph, i: nat, a: Answers)
    requires i < |g.tickets|
    ensures Evolves(g, Disabling(g, i, a).0)
  {
  }

  lemma FewerActive(g: Graph, h: Graph)
    requires OneActive(g) && Evolves(g, h) && forall q: nat :: IsActive(h, q) ==> IsActive(g, q)
    ensures OneActive(h)
  {
    forall q, r | 0 <= q < r && IsActive(h, q) && IsActive(h, r) ensures h.promotions[q].pack != h.promotions[r].pack {
      assert IsActive(g, q) && IsActive(g, r);
    }
  }

  lemma RollbackKept(g: Graph, h: Graph, q: nat, deregistered: bool)
    requires Rollbacks(g) && CanRollBack(g, q) && h.rollbacks == g.rollbacks + [Rollback(q, deregistered)]
    requires h.promotions == g.promotions[q := g.promotions[q].(status := PromotionStatus.Disabled)]
    ensures Rollbacks(h)
  {
    assert forall r :: 0 <= r < |g.rollbacks| ==> g.rollbacks[r].promotion != q;
  }

  lemma DisablingSafe(g: Graph, i: nat, a: Answers)
    requires Safe(g) && i < |g.tickets|
    ensures Safe(Disabling(g, i, a).0)
  {
    var h, q := Disabling(g, i, a).0, g.tickets[i].target;
    DisablingEvolves(g, i, a);
    ForksKept(g, h);
    FewerActive(g, h);
    if CanRollBack(g, q) { RollbackKept(g, h, q, a.deregisters); } else { RollbacksKept(g, h); }
  }

  /** Every ticket keeps the invariant: one active promotion a pack, one rollback a promotion,
      and a disabled promotion stays disabled. */
  lemma ProcessedSafe(g: Graph, i: nat, a: Answers)
    requires Safe(g) && i < |g.tickets|
    ensures Safe(Processed(g, i, a).0) && Evolves(g, Processed(g, i, a).0)
  {
    if g.tickets[i].disables {
      DisablingEvolves(g, i, a);
      DisablingSafe(g, i, a);
    } else {
      AdoptedEvolves(g, i, a);
      AdoptedSafe(g, i, a);
    }
  }

  // ----- what a step does to tickets and to the active set

  /** A processed ticket is closed, and no other ticket moves. */
  lemma TicketClosed(g: Graph, i: nat, a: Answers)
    requires i < |g.tickets|
    ensures var h := Processed(g, i, a).0;
            |h.tickets| == |g.tickets| && h.tickets[i].status != Open &&
            forall k :: 0 <= k < |g.tickets| && k != i ==> h.tickets[k] == g.tickets[k]
  {
  }

  /** A ticket that ends aborted leaves the active set as it was. */
  lemma AbortKeepsActive(g: Graph, i: nat, a: Answers, q: nat)
    requires i < |g.tickets| && Processed(g, i, a).0.tickets[i].status == Aborted
    ensures IsActive(Processed(g, i, a).0, q) <==> IsActive(g, q)
  {
  }

  /** A successful adoption makes its promotion the pack's one active promotion if and only if no
      earlier promotion of the same fork is still loading.  Otherwise the pack is left without any
      active promotion. */
  lemma AdoptionActiveIff(g: Graph, i: nat, a: Answers)
    requires i < |g.tickets| && !g.tickets[i].disables
    requires Refusal(g, g.tickets[i].target, a).None? && a.promotes
    ensures var p, n, h := g.tickets[i].target, |g.promotions|, Adopted(g, i, a).0;
            (IsActive(h, n) <==> FirstLoading(g.promotions, LatestFork(g.trials, p).value).None?) &&
            forall q: nat :: IsActive(h, q) && h.promotions[q].pack == g.proposals[p].pack ==> q == n
  {
    FlippedAppend(g.promotions, Made(g, g.tickets[i].target));
  }

  // ----- a process that dies inside a ticket

  /** A write that neither revives a disabled promotion nor records a rollback. */
  ghost predicate Harmless(g: Graph, w: Write) {
    match w
    case PromotionAdded(m) => FromTrial(g, m)
    case Flip(q) => q < |g.promotions| ==> g.promotions[q].status != Disabled
    case RollbackAdded(_) => false
    case _ => true
  }

  ghost predicate AllHarmless(g: Graph, ws: seq<Write>) { forall k :: 0 <= k < |ws| ==> Harmless(g, ws[k]) }

  /** Some of the promotions are new, and no rollback is. */
  ghost predicate Grows(g: Graph, h: Graph) {
    && Evolves(g, h) && h.rollbacks == g.rollbacks
    && forall q :: |g.promotions| <= q < |h.promotions| ==> FromTrial(g, h.promotions[q])
  }

  lemma GrowsOn(g: Graph, h: Graph, w: Write)
    requires Grows(g, h) && Harmless(g, w)
    ensures Grows(g, Apply(h, w))
  {
  }

  lemma {:induction false} HarmlessGrows(g: Graph, ws: seq<Write>)
    requires AllHarmless(g, ws)
    ensures Grows(g, ApplyAll(g, ws))
  {
    if ws == [] {
    } else {
      HarmlessGrows(g, ws[..|ws| - 1]);
      GrowsOn(g, ApplyAll(g, ws[..|ws| - 1]), ws[|ws| - 1]);
    }
  }

  lemma GrowsSound(g: Graph, h: Graph)
    requires Sound(g) && Grows(g, h)
    ensures Sound(h)
  {
    forall q | |g.promotions| <= q < |h.promotions| ensures FromTrial(h, h.promotions[q]) {
      assert FromTrial(g, h.promotions[q]);
    }
    ForksKept(g, h);
    RollbacksKept(g, h);
  }

  lemma {:induction false} SupersedeHarmless(g: Graph, ms: seq<Promotion>, pack: string, by': nat, k: nat)
    requires k <= |ms|
    ensures AllHarmless(g, SupersedeWrites(ms, pack, by', k))
  {
    if k == 0 {
    } else {
      SupersedeHarmless(g, ms, pack, by', k - 1);
    }
  }

  lemma InstallHarmless(g: Graph, i: nat, p: nat, promotes: bool)
    requires p < |g.proposals| && LatestFork(g.trials, p).Some?
    ensures AllHarmless(g, InstallWrites(g, i, p, promotes))
  {
    var ms, fork := g.promotions + [Made(g, p)], LatestFork(g.trials, p).value;
    MadeFromTrial(g, p);
    SupersedeHarmless(g, Flipped(ms, fork), g.proposals[p].pack, |g.promotions|, |ms|);
    RecorderHarmless(g, ms, fork);
  }

  lemma RecorderHarmless(g: Graph, ms: seq<Promotion>, fork: string)
    requires g.promotions <= ms
    ensures AllHarmless(g, RecorderWrites(ms, fork, |g.proposals|))
  {
  }

  lemma AdoptHarmless(g: Graph, i: nat, a: Answers)
    requires i < |g.tickets|
    ensures AllHarmless(g, AdoptWrites(g, i, a))
  {
    var p := g.tickets[i].target;
    if Refusal(g, p, a).None? { InstallHarmless(g, i, p, a.promotes); }
  }

  lemma UndoneSound(g: Graph, q: nat, a: Answers)
    requires Sound(g) && CanRollBack(g, q)
    ensures Sound(Undone(g, q, a)) && Evolves(g, Undone(g, q, a))
  {
    var h := Undone(g, q, a);
    ForksKept(g, h);
    RollbackKept(g, h, q, a.deregisters);
  }

  lemma DisablePartial(g: Graph, i: nat, a: Answers, n: nat)
    requires Sound(g) && i < |g.tickets| && CanRollBack(g, g.tickets[i].target) && n <= |DisableWrites(g, i, a)|
    ensures var h := ApplyAll(g, DisableWrites(g, i, a)[..n]); Sound(h) && Evolves(g, h)
  {
    var q, ws := g.tickets[i].target, DisableWrites(g, i, a);
    var m := g.promotions[q];
    var down, undo, close := TakeDownWrites(m, q, a), UndoWrites(m, q, a), CloseWrites(g, i, q);
    if n <= |down| {
      assert ws[..n] == down[..n];
      HarmlessGrows(g, down[..n]);
      GrowsSound(g, ApplyAll(g, down[..n]));
    } else {
      assert ws[..n] == undo + close[..n - |down| - 1];
      ClosePartial(g, q, a, close[..n - |down| - 1]);
    }
  }

  lemma ClosePartial(g: Graph, q: nat, a: Answers, rest: seq<Write>)
    requires Sound(g) && CanRollBack(g, q) && forall m :: AllHarmless(m, rest)
    ensures var h := ApplyAll(g, UndoWrites(g.promotions[q], q, a) + rest); Sound(h) && Evolves(g, h)
  {
    var m := Undone(g, q, a);
    UndoneSound(g, q, a);
    UndoApplied(g, q, a);
    ApplyConcat(g, UndoWrites(g.promotions[q], q, a), rest);
    HarmlessGrows(m, rest);
    GrowsSound(m, ApplyAll(m, rest));
    EvolvesOn(g, m, ApplyAll(m, rest));
  }

  lemma AdoptPartial(g: Graph, i: nat, a: Answers, n: nat)
    requires Sound(g) && i < |g.tickets| && n <= |AdoptWrites(g, i, a)|
    ensures var h := ApplyAll(g, AdoptWrites(g, i, a)[..n]); Sound(h) && Grows(g, h)
  {
    var ws := AdoptWrites(g, i, a)[..n];
    AdoptHarmless(g, i, a);
    HarmlessGrows(g, ws);
    GrowsSound(g, ApplyAll(g, ws));
  }

  /** Wherever in a ticket the process dies, the graph it leaves keeps forks and rollbacks in order,
      and no disabled promotion is alive again. */
  lemma PartialSound(g: Graph, i: nat, a: Answers, n: nat)
    requires Sound(g) && i < |g.tickets|
    ensures Sound(Partial(g, i, a, n)) && Evolves(g, Partial(g, i, a, n))
  {
    var ws := Writes(g, i, a);
    var k := Least(n, |ws|);
    assert ws[..|ws|] == ws && Partial(g, i, a, n) == ApplyAll(g, ws[..k]);
    if !g.tickets[i].disables {
      AdoptPartial(g, i, a, k);
    } else if CanRollBack(g, g.tickets[i].target) {
      DisablePartial(g, i, a, k);
    } else {
      HarmlessGrows(g, ws[..k]);
      GrowsSound(g, ApplyAll(g, ws[..k]));
    }
  }
}
