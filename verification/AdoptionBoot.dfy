/** What a new process does to the promotions it finds (packs/evolution/boot.py), and what is left
    of a ticket inside which the old process died. */
module AdoptionBoot {
  import opened Prelude
  import opened Adoption
  import opened AdoptionSafety

  /** A loading promotion whose fork the log shows promoted becomes active, any other is parked. */
  function Healed(m: Promotion, applied: set<string>): Promotion {
    if m.status != Loading then m
    else m.(status := if m.fork != "" && m.fork in applied then Active else PromotionStatus.Disabled)
  }

  function HealedAll(ms: seq<Promotion>, applied: set<string>): seq<Promotion> {
    seq(|ms|, q requires 0 <= q < |ms| => Healed(ms[q], applied))
  }

  predicate ActiveOf(ms: seq<Promotion>, q: nat, pack: string) {
    q < |ms| && ms[q].status == Active && ms[q].pack == pack
  }

  /** Last active promotion of a pack: the survivor of recency. */
  function LastActive(ms: seq<Promotion>, pack: string): (q: Option<nat>)
    ensures q.Some? ==> ActiveOf(ms, q.value, pack) && forall r: nat :: ActiveOf(ms, r, pack) ==> r <= q.value
    ensures q.None? ==> forall r: nat :: !ActiveOf(ms, r, pack)
  {
    if ms == [] then None
    else
      var last, init := |ms| - 1, ms[..|ms| - 1];
      assert forall r: nat :: r < last ==> init[r] == ms[r];
      if ActiveOf(ms, last, pack) then Some(last)
      else
        var q := LastActive(init, pack);
        assert forall r: nat :: ActiveOf(ms, r, pack) ==> ActiveOf(init, r, pack);
        assert q.Some? ==> ActiveOf(init, q.value, pack) && ActiveOf(ms, q.value, pack);
        q
  }

  predicate Survives(ms: seq<Promotion>, q: nat) {
    q < |ms| && ms[q].status == Active && LastActive(ms, ms[q].pack) == Some(q)
  }

  predicate HasRival(ms: seq<Promotion>, q: nat)
    requires q < |ms|
  {
    exists r: nat :: r < q && ActiveOf(ms, r, ms[q].pack)
  }

  predicate HasLater(ms: seq<Promotion>, q: nat)
    requires q < |ms|
  {
    exists r: nat :: q < r < |ms| && ms[r].pack == ms[q].pack
  }

  /** The survivor is reloaded unless it is the only active one and a later promotion is not active. */
  predicate Reloads(ms: seq<Promotion>, count: nat, q: nat) {
    Survives(ms, q) && (HasRival(ms, q) || !HasLater(ms, q)) && ms[q].proposal < count
  }

  /** `intact` holds the packs whose bundle still has the reviewed hash. */
  function Resolved(ms: seq<Promotion>, count: nat, intact: set<string>, q: nat): Promotion
    requires q < |ms|
  {
    var m := ms[q];
    if m.status == Active && !Survives(ms, q)
    then m.(status := PromotionStatus.Disabled, supersededBy := LastActive(ms, m.pack))
    else if Reloads(ms, count, q) && m.pack !in intact then m.(status := PromotionStatus.Disabled)
    else m
  }

  function ResolvedAll(ms: seq<Promotion>, count: nat, intact: set<string>): seq<Promotion> {
    seq(|ms|, q requires 0 <= q < |ms| => Resolved(ms, count, intact, q))
  }

  /** What the new process runs: the bundle of each reloaded promotion's proposal. */
  function ReloadedUpTo(ms: seq<Promotion>, count: nat, intact: set<string>, n: nat): map<string, nat>
    requires n <= |ms|
  {
    if n == 0 then map[]
    else
      var before := ReloadedUpTo(ms, count, intact, n - 1);
      var m := ms[n - 1];
      if Reloads(ms, count, n - 1) && m.pack in intact then before[m.pack := m.proposal] else before
  }

  predicate HealsProposal(ms: seq<Promotion>, applied: set<string>, n: nat, p: nat)
    requires n <= |ms|
  {
    exists q :: 0 <= q < n && ms[q].status == Loading && Healed(ms[q], applied).status == Active && ms[q].proposal == p
  }

  /** An open adopt ticket of a healed proposal is closed. */
  function Closed(t: Ticket, ms: seq<Promotion>, applied: set<string>, n: nat): Ticket
    requires n <= |ms|
  {
    if t.status == Open && !t.disables && HealsProposal(ms, applied, n, t.target)
    then t.(status := TicketStatus.Done) else t
  }

  function ClosedAll(ts: seq<Ticket>, ms: seq<Promotion>, applied: set<string>, n: nat): seq<Ticket>
    requires n <= |ms|
  {
    seq(|ts|, i requires 0 <= i < |ts| => Closed(ts[i], ms, applied, n))
  }

  function Rebooted(g: Graph, intact: set<string>): Graph {
    var ms := HealedAll(g.promotions, g.applied);
    g.(promotions := ResolvedAll(ms, |g.proposals|, intact),
       tickets := ClosedAll(g.tickets, g.promotions, g.applied, |g.promotions|),
       running := ReloadedUpTo(ms, |g.proposals|, intact, |ms|))
  }

  function ClosedOne(t: Ticket, p: nat): Ticket {
    if t.status == Open && !t.disables && t.target == p then t.(status := TicketStatus.Done) else t
  }

  function ClosedFor(ts: seq<Ticket>, p: nat): seq<Ticket> {
    seq(|ts|, i requires 0 <= i < |ts| => ClosedOne(ts[i], p))
  }

  lemma ClosedNone(ts: seq<Ticket>, ms: seq<Promotion>, applied: set<string>)
    ensures ClosedAll(ts, ms, applied, 0) == ts
  {
  }

  lemma ClosedStep(ts: seq<Ticket>, ms: seq<Promotion>, applied: set<string>, q: nat)
    requires q < |ms|
    ensures ClosedAll(ts, ms, applied, q + 1) ==
            if ms[q].status == Loading && Healed(ms[q], applied).status == Active
            then ClosedFor(ClosedAll(ts, ms, applied, q), ms[q].proposal) else ClosedAll(ts, ms, applied, q)
  {
    forall p: nat
      ensures HealsProposal(ms, applied, q + 1, p) <==>
              HealsProposal(ms, applied, q, p) ||
              (ms[q].status == Loading && Healed(ms[q], applied).status == Active && ms[q].proposal == p)
    {
    }
  }

  /** Whatever boot finds, it leaves at most one active promotion a pack. */
  lemma BootLeavesOneActive(g: Graph, intact: set<string>)
    ensures OneActive(Rebooted(g, intact))
  {
    var ms, h := HealedAll(g.promotions, g.applied), Rebooted(g, intact);
    forall q | 0 <= q && IsActive(h, q) ensures Survives(ms, q) && h.promotions[q].pack == ms[q].pack {
    }
  }

  /** What boot makes of one promotion: a disabled one stays as it is; a loading one becomes active if
      its fork has its marker in the log and is disabled otherwise; one that goes down for a later one
      of its pack names it. */
  lemma BootReads(g: Graph, intact: set<string>, q: nat)
    requires q < |g.promotions|
    ensures var m, n := g.promotions[q], Rebooted(g, intact).promotions[q];
            && n.proposal == m.proposal && n.pack == m.pack && n.fork == m.fork && n.status != Loading
            && (m.status == PromotionStatus.Disabled ==> n == m)
            && (m.status == Loading && (m.fork == "" || m.fork !in g.applied) ==>
                  n == m.(status := PromotionStatus.Disabled))
            && (n.supersededBy != m.supersededBy ==>
                  && n.status == PromotionStatus.Disabled && n.supersededBy.Some?
                  && q < n.supersededBy.value < |g.promotions|
                  && g.promotions[n.supersededBy.value].pack == m.pack)
  {
    var ms := HealedAll(g.promotions, g.applied);
    if ms[q].status == Active { assert ActiveOf(ms, q, ms[q].pack); }
  }

  lemma BootEvolves(g: Graph, intact: set<string>)
    ensures Evolves(g, Rebooted(g, intact))
  {
  }

  /** Boot needs no more than what a dying process leaves. */
  lemma BootSafe(g: Graph, intact: set<string>)
    requires Sound(g)
    ensures Safe(Rebooted(g, intact)) && Evolves(g, Rebooted(g, intact))
  {
    var h := Rebooted(g, intact);
    BootLeavesOneActive(g, intact);
    BootEvolves(g, intact);
    ForksKept(g, h);
    RollbacksKept(g, h);
  }

  /** Some promotion of the pack is active. */
  ghost predicate HasActive(ms: seq<Promotion>, pack: string) { exists q: nat :: ActiveOf(ms, q, pack) }

  /** A pack whose bundle is intact has an active promotion after boot if and only if one was active
      or could be healed. */
  lemma BootKeepsPackIff(g: Graph, intact: set<string>, pack: string)
    requires pack in intact
    ensures HasActive(Rebooted(g, intact).promotions, pack) <==> HasActive(HealedAll(g.promotions, g.applied), pack)
  {
    var ms, h := HealedAll(g.promotions, g.applied), Rebooted(g, intact);
    if HasActive(ms, pack) {
      var r := LastActive(ms, pack).value;
      assert Survives(ms, r) && ActiveOf(h.promotions, r, pack);
    }
    if q: nat :| ActiveOf(h.promotions, q, pack) { assert ActiveOf(ms, q, pack); }
  }
}
