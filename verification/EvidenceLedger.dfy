/** The evidence ledger: revisions, supersession and provider tombstones
    (packs/activity_normalizer/behaviors.py).

    A stable id is the tuple it hashes.  An object id is the object's place in the
    creation-ordered list. */
module EvidenceLedger {
  import opened Prelude

  type Hash = string

  datatype Identity = Identity(surface: string, dedupKey: string)

  /** One acquired item with its content handoff; `readable` is the verdict of reading its replay
      payload, `buildable` that of building the evidence object, which comes later. */
  datatype Item = Item(identity: Identity, provider: Option<string>, sourceHash: Option<Hash>, payloadHash: Hash,
                       hasContent: bool, readable: bool, buildable: bool)
  {
    function ContentHash(): Hash {
      if sourceHash.Some? && sourceHash.value != "" then sourceHash.value else payloadHash
    }

    predicate Accepted() { hasContent && readable && buildable }
  }

  datatype Status = Current | Superseded | Revoked

  datatype Evidence = Evidence(identity: Identity, number: nat, hash: Hash, status: Status,
                               provider: Option<string>, supersedes: Option<nat>)

  /** A tombstone names an identity, a provider item, or both. */
  datatype Tombstone = Tombstone(surface: string, identity: Option<Identity>, provider: Option<string>, proposed: bool)

  predicate Hits(t: Tombstone, identity: Identity, provider: Option<string>) {
    && t.proposed && identity.surface == t.surface
    && ((t.identity.Some? && t.identity.value == identity) ||
        (t.provider.Some? && t.provider.value != "" && t.provider == provider))
  }

  // ----- the two transitions

  /** The revision with the greatest number, the latest of equals: the last after a stable sort. */
  function Latest(ev: seq<Evidence>, id: Identity, n: nat): Option<nat>
    requires n <= |ev|
    ensures Latest(ev, id, n).Some? ==> Latest(ev, id, n).value < n && ev[Latest(ev, id, n).value].identity == id
  {
    if n == 0 then None
    else
      var before := Latest(ev, id, n - 1);
      if ev[n - 1].identity == id && (before.None? || ev[before.value].number <= ev[n - 1].number)
      then Some(n - 1) else before
  }

  function Delivered(ev: seq<Evidence>, item: Item): seq<Evidence> {
    var last := Latest(ev, item.identity, |ev|);
    if !item.Accepted() || (last.Some? && ev[last.value].hash == item.ContentHash()) then ev
    else if last.None? then ev + [Evidence(item.identity, 1, item.ContentHash(), Current, item.provider, None)]
    else ev[last.value := ev[last.value].(status := Superseded)] +
         [Evidence(item.identity, ev[last.value].number + 1, item.ContentHash(), Current, item.provider, last)]
  }

  function Revoke(e: Evidence, t: Tombstone): Evidence {
    if e.status == Current && Hits(t, e.identity, e.provider) then e.(status := Revoked) else e
  }

  function Buried(ev: seq<Evidence>, t: Tombstone): seq<Evidence> {
    seq(|ev|, i requires 0 <= i < |ev| => Revoke(ev[i], t))
  }

  /** A readable repeat of the identity's latest content: it is dropped before anything is built. */
  predicate Repeats(ev: seq<Evidence>, item: Item) {
    var last := Latest(ev, item.identity, |ev|);
    item.hasContent && item.readable && last.Some? && ev[last.value].hash == item.ContentHash()
  }

  datatype Event = Delivery(item: Item) | Burial(tombstone: Tombstone)

  function Step(ev: seq<Evidence>, e: Event): seq<Evidence> {
    match e case Delivery(item) => Delivered(ev, item) case Burial(t) => Buried(ev, t)
  }

  function After(run: seq<Event>): seq<Evidence> {
    if run == [] then [] else Step(After(run[..|run| - 1]), run[|run| - 1])
  }

  // ----- the chain every run keeps

  function CountOf(ev: seq<Evidence>, id: Identity, n: nat): nat
    requires n <= |ev|
  {
    if n == 0 then 0 else CountOf(ev, id, n - 1) + if ev[n - 1].identity == id then 1 else 0
  }

  ghost predicate LastOf(ev: seq<Evidence>, i: nat)
    requires i < |ev|
  {
    forall k :: i < k < |ev| ==> ev[k].identity != ev[i].identity
  }

  /** Revision `i`: its number counts the identity's revisions, it supersedes the one before,
      whose content differs, and only the last may be current. */
  ghost predicate Linked(ev: seq<Evidence>, i: nat)
    requires i < |ev|
  {
    var e := ev[i];
    && e.number == CountOf(ev, e.identity, i) + 1
    && e.supersedes == Latest(ev, e.identity, i)
    && (e.supersedes.None? <==> e.number == 1)
    && (e.supersedes.Some? ==> ev[e.supersedes.value].hash != e.hash && ev[e.supersedes.value].number + 1 == e.number)
    && (e.status == Superseded <==> !LastOf(ev, i))
  }

  ghost predicate Chain(ev: seq<Evidence>) { forall i :: 0 <= i < |ev| ==> Linked(ev, i) }

  /** In a chain the greatest number is the last revision, and it is the count. */
  lemma {:induction false} LatestIsLast(ev: seq<Evidence>, id: Identity, n: nat)
    requires Chain(ev) && n <= |ev|
    ensures Latest(ev, id, n).None? <==> CountOf(ev, id, n) == 0
    ensures Latest(ev, id, n).Some? ==>
              ev[Latest(ev, id, n).value].number == CountOf(ev, id, n) &&
              forall k :: Latest(ev, id, n).value < k < n ==> ev[k].identity != id
    ensures Latest(ev, id, n).None? ==> forall k :: 0 <= k < n ==> ev[k].identity != id
  {
    if n == 0 {
    } else {
      LatestIsLast(ev, id, n - 1);
      assert Linked(ev, n - 1);
    }
  }

  /** Counts and latest revisions depend on identities and numbers only. */
  lemma {:induction false} SameShape(ev: seq<Evidence>, other: seq<Evidence>, id: Identity, n: nat)
    requires n <= |ev| && n <= |other|
    requires forall k :: 0 <= k < n ==> ev[k].identity == other[k].identity && ev[k].number == other[k].number
    ensures CountOf(ev, id, n) == CountOf(other, id, n) && Latest(ev, id, n) == Latest(other, id, n)
  {
    if n == 0 {
    } else {
      SameShape(ev, other, id, n - 1);
    }
  }

  lemma DeliveredKeepsChain(ev: seq<Evidence>, item: Item)
    requires Chain(ev)
    ensures Chain(Delivered(ev, item))
  {
    var next := Delivered(ev, item);
    var last := Latest(ev, item.identity, |ev|);
    if next != ev {
      LatestIsLast(ev, item.identity, |ev|);
      SameShape(ev, next, item.identity, |ev|);
      forall i | 0 <= i < |ev| ensures Linked(next, i) {
        assert Linked(ev, i);
        SameShape(ev, next, ev[i].identity, i);
        if ev[i].identity == item.identity {
          assert next[|ev|].identity == next[i].identity;
          assert !LastOf(next, i);
          if Some(i) != last { assert ev[last.value].identity == ev[i].identity; }
        } else {
          assert LastOf(ev, i) ==> LastOf(next, i);
          assert LastOf(next, i) ==> LastOf(ev, i) by {
            assert forall k :: 0 <= k < |ev| ==> ev[k].identity == next[k].identity;
          }
        }
      }
      assert LastOf(next, |ev|);
      assert Linked(next, |ev|);
    }
  }

  lemma BuriedKeepsChain(ev: seq<Evidence>, t: Tombstone)
    requires Chain(ev)
    ensures Chain(Buried(ev, t))
  {
    var next := Buried(ev, t);
    forall i | 0 <= i < |ev| ensures Linked(next, i) {
      assert Linked(ev, i);
      SameShape(ev, next, ev[i].identity, i);
      assert forall k :: 0 <= k < |ev| ==> ev[k].identity == next[k].identity;
      assert LastOf(ev, i) <==> LastOf(next, i);
    }
  }

  /** Every run of deliveries and tombstones keeps the chain. */
  lemma {:induction false} RunKeepsChain(run: seq<Event>)
    ensures Chain(After(run))
  {
    if run == [] {
    } else {
      RunKeepsChain(run[..|run| - 1]);
      match run[|run| - 1]
      case Delivery(item) => DeliveredKeepsChain(After(run[..|run| - 1]), item);
      case Burial(t) => BuriedKeepsChain(After(run[..|run| - 1]), t);
    }
  }

  /** At most one revision of an identity is current, and it is the last one. */
  lemma OneCurrent(run: seq<Event>, i: nat, j: nat)
    requires i < j < |After(run)| && After(run)[i].identity == After(run)[j].identity
    ensures After(run)[i].status == Superseded
  {
    RunKeepsChain(run);
    assert Linked(After(run), i);
  }

  // ----- the ledger as a function of what was delivered

  /** Content hashes of an identity's revisions, oldest first. */
  function History(ev: seq<Evidence>, id: Identity): seq<Hash> {
    if ev == [] then []
    else
      var last := ev[|ev| - 1];
      History(ev[..|ev| - 1], id) + if last.identity == id then [last.hash] else []
  }

  /** Content hashes of all accepted deliveries for an identity. */
  function DeliveredHashes(run: seq<Event>, id: Identity): seq<Hash> {
    if run == [] then []
    else
      var before := DeliveredHashes(run[..|run| - 1], id);
      match run[|run| - 1]
      case Delivery(item) => if item.identity == id && item.Accepted() then before + [item.ContentHash()] else before
      case Burial(_) => before
  }

  /** Drops every element equal to its predecessor. */
  function Destutter(s: seq<Hash>): seq<Hash> {
    if |s| <= 1 then s
    else if s[|s| - 1] == s[|s| - 2] then Destutter(s[..|s| - 1])
    else Destutter(s[..|s| - 1]) + [s[|s| - 1]]
  }

  lemma {:induction false} DestutterLast(s: seq<Hash>)
    requires s != []
    ensures Destutter(s) != [] && Destutter(s)[|Destutter(s)| - 1] == s[|s| - 1]
  {
    if |s| <= 1 {
    } else {
      DestutterLast(s[..|s| - 1]);
    }
  }

  lemma {:induction false} HistorySame(ev: seq<Evidence>, other: seq<Evidence>, id: Identity)
    requires |ev| == |other|
    requires forall k :: 0 <= k < |ev| ==> ev[k].identity == other[k].identity && ev[k].hash == other[k].hash
    ensures History(ev, id) == History(other, id)
  {
    if ev == [] {
    } else {
      HistorySame(ev[..|ev| - 1], other[..|other| - 1], id);
    }
  }

  lemma {:induction false} HistoryLast(ev: seq<Evidence>, id: Identity)
    requires Chain(ev)
    ensures |History(ev, id)| == CountOf(ev, id, |ev|)
    ensures Latest(ev, id, |ev|).None? <==> History(ev, id) == []
    ensures Latest(ev, id, |ev|).Some? ==>
              History(ev, id) != [] && ev[Latest(ev, id, |ev|).value].hash == History(ev, id)[|History(ev, id)| - 1]
  {
    HistoryPrefix(ev, id, |ev|);
    assert ev[..|ev|] == ev;
  }

  lemma {:induction false} HistoryPrefix(ev: seq<Evidence>, id: Identity, n: nat)
    requires Chain(ev) && n <= |ev|
    ensures |History(ev[..n], id)| == CountOf(ev, id, n)
    ensures Latest(ev, id, n).None? <==> History(ev[..n], id) == []
    ensures Latest(ev, id, n).Some? ==>
              History(ev[..n], id) != [] && ev[Latest(ev, id, n).value].hash ==
                  History(ev[..n], id)[|History(ev[..n], id)| - 1]
  {
    if n == 0 {
    } else {
      HistoryPrefix(ev, id, n - 1);
      LatestIsLast(ev, id, n - 1);
      assert ev[..n][..n - 1] == ev[..n - 1];
      assert Linked(ev, n - 1);
    }
  }

  lemma DestutterAppend(s: seq<Hash>, h: Hash)
    ensures Destutter(s + [h]) == if s != [] && s[|s| - 1] == h then Destutter(s) else Destutter(s) + [h]
  {
    assert (s + [h])[..|s|] == s;
  }

  lemma DeliveryRefines(ev: seq<Evidence>, item: Item, id: Identity, before: seq<Hash>)
    requires Chain(ev) && History(ev, id) == Destutter(before)
    ensures History(Delivered(ev, item), id) ==
            Destutter(before + if item.identity == id && item.Accepted() then [item.ContentHash()] else [])
  {
    DeliveryHistory(ev, item, id);
    if item.identity == id && item.Accepted() {
      HistoryLast(ev, id);
      DestutterAppend(before, item.ContentHash());
      if before != [] { DestutterLast(before); }
    } else {
      assert before + [] == before;
    }
  }

  /** For every run, the revisions of an identity are its accepted deliveries with immediate
      repeats dropped; tombstones and rejected items leave no trace in it. */
  lemma {:induction false} RevisionsAreDistinctDeliveries(run: seq<Event>, id: Identity)
    ensures History(After(run), id) == Destutter(DeliveredHashes(run, id))
  {
    if run == [] {
    } else {
      var init, ev := run[..|run| - 1], After(run[..|run| - 1]);
      RevisionsAreDistinctDeliveries(init, id);
      var before := DeliveredHashes(init, id);
      match run[|run| - 1]
      case Burial(t) =>
        HistorySame(ev, Buried(ev, t), id);
      case Delivery(item) =>
        RunKeepsChain(init);
        DeliveryRefines(ev, item, id, before);
        assert before + [] == before;
    }
  }

  lemma DeliveryHistory(ev: seq<Evidence>, item: Item, id: Identity)
    ensures History(Delivered(ev, item), id) ==
            History(ev, id) + if Delivered(ev, item) != ev && item.identity == id then [item.ContentHash()] else []
  {
    var next := Delivered(ev, item);
    if next != ev { HistorySame(ev, next[..|next| - 1], id); }
  }

  /** The identity's last revision is the one `item` created, with this status. */
  ghost predicate Stands(ev: seq<Evidence>, item: Item, status: Status) {
    var last := Latest(ev, item.identity, |ev|);
    && last.Some? && ev[last.value].hash == item.ContentHash()
    && ev[last.value].provider == item.provider && ev[last.value].status == status
  }

  predicate HitBy(since: seq<Event>, item: Item) {
    exists e :: e in since && e.Burial? && Hits(e.tombstone, item.identity, item.provider)
  }

  predicate Quiet(e: Event, item: Item) {
    e.Delivery? && e.item.identity == item.identity && e.item.Accepted() ==> e.item.ContentHash() == item.ContentHash()
  }

  lemma StandsStep(ev: seq<Evidence>, item: Item, e: Event, hit: bool)
    requires Chain(ev) && Quiet(e, item)
    requires Stands(ev, item, if hit then Revoked else Current)
    ensures Stands(Step(ev, e), item, if hit || HitBy([e], item) then Revoked else Current)
  {
    match e
    case Delivery(other) =>
      LatestKept(ev, other, item.identity);
    case Burial(t) =>
      SameShape(ev, Buried(ev, t), item.identity, |ev|);
      assert e in [e];
  }

  lemma HitByAppend(init: seq<Event>, e: Event, item: Item)
    ensures HitBy(init + [e], item) <==> HitBy(init, item) || HitBy([e], item)
  {
    assert forall x :: x in init + [e] <==> x in init || x in [e];
  }

  lemma DeliveryCreates(before: seq<Event>, item: Item)
    requires item.Accepted()
    requires Destutter(DeliveredHashes(before + [Delivery(item)], item.identity)) !=
             Destutter(DeliveredHashes(before, item.identity))
    ensures var ev := Delivered(After(before), item);
            Latest(ev, item.identity, |ev|) == Some(|ev| - 1) && ev[|ev| - 1].status == Current &&
            ev[|ev| - 1].hash == item.ContentHash() && ev[|ev| - 1].provider == item.provider
  {
    var ev := After(before);
    var next := Delivered(ev, item);
    RevisionsAreDistinctDeliveries(before, item.identity);
    RevisionsAreDistinctDeliveries(before + [Delivery(item)], item.identity);
    assert (before + [Delivery(item)])[..|before|] == before;
    assert next != ev;
    RunKeepsChain(before);
    DeliveredKeepsChain(ev, item);
    LatestIsLast(next, item.identity, |next|);
  }

  lemma {:induction false} StandsThrough(start: seq<Event>, item: Item, since: seq<Event>)
    requires Stands(After(start), item, Current) && forall e :: e in since ==> Quiet(e, item)
    ensures Stands(After(start + since), item, if HitBy(since, item) then Revoked else Current)
    decreases |since|
  {
    if since == [] {
      assert start + since == start;
    } else {
      var init, e := since[..|since| - 1], since[|since| - 1];
      assert since == init + [e] && (start + since)[..|start + since| - 1] == start + init;
      StandsThrough(start, item, init);
      RunKeepsChain(start + init);
      StandsStep(After(start + init), item, e, HitBy(init, item));
      HitByAppend(init, e, item);
    }
  }

  /** The standing of the last revision: after the delivery that created it, while nothing newer
      is accepted, it is current if and only if no tombstone has hit it since. Redelivering
      revoked content does not revive it. */
  lemma CurrentUntilBuried(before: seq<Event>, item: Item, since: seq<Event>)
    requires item.Accepted()
    requires Destutter(DeliveredHashes(before + [Delivery(item)], item.identity)) !=
             Destutter(DeliveredHashes(before, item.identity))
    requires forall e :: e in since ==> Quiet(e, item)
    ensures Stands(After(before + [Delivery(item)] + since), item, if HitBy(since, item) then Revoked else Current)
  {
    DeliveryCreates(before, item);
    DeliveryStands(before, item);
    StandsThrough(before + [Delivery(item)], item, since);
  }

  lemma DeliveryStands(before: seq<Event>, item: Item)
    requires var ev := Delivered(After(before), item);
             Latest(ev, item.identity, |ev|) == Some(|ev| - 1) && ev[|ev| - 1].status == Current &&
             ev[|ev| - 1].hash == item.ContentHash() && ev[|ev| - 1].provider == item.provider
    ensures Stands(After(before + [Delivery(item)]), item, Current)
  {
    assert (before + [Delivery(item)])[..|before|] == before;
  }

  /** A delivery for another identity, or of the same content, keeps the identity's last revision. */
  lemma LatestKept(ev: seq<Evidence>, item: Item, id: Identity)
    requires Chain(ev) && Latest(ev, id, |ev|).Some?
    requires item.identity == id && item.Accepted() ==> item.ContentHash() == ev[Latest(ev, id, |ev|).value].hash
    ensures var next := Delivered(ev, item);
            Latest(next, id, |next|) == Latest(ev, id, |ev|) &&
            next[Latest(ev, id, |ev|).value] == ev[Latest(ev, id, |ev|).value]
  {
    var next := Delivered(ev, item);
    if next != ev { SameShape(ev, next, id, |ev|); }
  }

  // ----- what a tombstone does, in its own terms

  /** The evidence is of the tombstone's surface and has its identity or its provider item. */
  predicate Named(t: Tombstone, e: Evidence) {
    && e.identity.surface == t.surface
    && (t.identity == Some(e.identity) || (e.provider != None && e.provider != Some("") && t.provider == e.provider))
  }

  /** A proposed tombstone leaves nothing it names current, changes nothing else, and takes only
      current evidence to revoked; one that is not proposed changes nothing. */
  lemma BuriedExactly(ev: seq<Evidence>, t: Tombstone, i: nat)
    requires i < |ev|
    ensures |Buried(ev, t)| == |ev|
    ensures t.proposed && Named(t, ev[i]) ==> Buried(ev, t)[i].status != Current
    ensures !(t.proposed && Named(t, ev[i]) && ev[i].status == Current) ==> Buried(ev, t)[i] == ev[i]
    ensures Buried(ev, t)[i] != ev[i] ==> Buried(ev, t)[i] == ev[i].(status := Revoked)
  {
  }

  ghost predicate NoneCurrent(ev: seq<Evidence>, id: Identity) {
    forall i :: 0 <= i < |ev| && ev[i].identity == id ==> ev[i].status != Current
  }

  lemma NoneCurrentStep(ev: seq<Evidence>, e: Event, id: Identity)
    requires NoneCurrent(ev, id) && |History(Step(ev, e), id)| == |History(ev, id)|
    ensures NoneCurrent(Step(ev, e), id)
  {
    match e
    case Burial(t) =>
    case Delivery(item) => DeliveryHistory(ev, item, id);
  }

  /** From a tombstone that names an identity on, it has no current revision until it is delivered
      with new content. */
  lemma {:induction false} NoneCurrentUntilNew(before: seq<Event>, t: Tombstone, since: seq<Event>, id: Identity)
    requires t.proposed && t.identity == Some(id) && t.surface == id.surface
    requires Destutter(DeliveredHashes(before + [Burial(t)] + since, id)) == Destutter(DeliveredHashes(before, id))
    ensures NoneCurrent(After(before + [Burial(t)] + since), id)
    decreases |since|
  {
    var start := before + [Burial(t)];
    assert start[..|before|] == before;
    var ev := After(before);
    HistorySame(ev, Buried(ev, t), id);
    RevisionsAreDistinctDeliveries(before, id);
    RevisionsAreDistinctDeliveries(start + since, id);
    if since == [] {
      assert start + since == start;
      forall i | 0 <= i < |ev| && ev[i].identity == id ensures Buried(ev, t)[i].status != Current {
        BuriedExactly(ev, t, i);
      }
    } else {
      var init, e := since[..|since| - 1], since[|since| - 1];
      assert start + since == (start + init) + [e] && (start + since)[..|start + since| - 1] == start + init;
      RevisionsAreDistinctDeliveries(start + init, id);
      HistoryPrefixEqual(start, init, e, id);
      NoneCurrentUntilNew(before, t, init, id);
      NoneCurrentStep(After(start + init), e, id);
    }
  }

  /** An event that adds no revision leaves the history as it is. */
  lemma HistoryPrefixEqual(start: seq<Event>, init: seq<Event>, e: Event, id: Identity)
    requires |History(After(start + init + [e]), id)| == |History(After(start), id)|
    ensures History(After(start + init), id) == History(After(start), id)
    ensures History(After(start + init + [e]), id) == History(After(start + init), id)
  {
    HistoryExtends(start, init, id);
    HistoryExtends(start + init, [e], id);
  }

  lemma {:induction false} HistoryExtends(start: seq<Event>, since: seq<Event>, id: Identity)
    ensures History(After(start), id) <= History(After(start + since), id)
    decreases |since|
  {
    if since == [] {
      assert start + since == start;
    } else {
      var init, e := since[..|since| - 1], since[|since| - 1];
      assert (start + since)[..|start + since| - 1] == start + init;
      HistoryExtends(start, init, id);
      match e
      case Burial(t) => HistorySame(After(start + init), Buried(After(start + init), t), id);
      case Delivery(item) => DeliveryHistory(After(start + init), item, id);
    }
  }

  // ----- what a delivery adds, in its own terms

  /** The hash a revision of the item carries: the one its source declared, else that of its payload. */
  ghost predicate HashOf(item: Item, hash: Hash) {
    || (item.sourceHash == Some(hash) && hash != "")
    || ((item.sourceHash == None || item.sourceHash == Some("")) && hash == item.payloadHash)
  }

  ghost predicate LastHash(ev: seq<Evidence>, id: Identity, hash: Hash) {
    exists i :: 0 <= i < |ev| && LastOf(ev, i) && ev[i].identity == id && ev[i].hash == hash
  }

  /** After every run a delivery adds a revision if and only if its payload can be read and built into
      evidence and its hash is not that of the identity's last revision. It counts as a failure
      exactly when it adds none and is not a readable repeat of that hash. */
  lemma RevisionIff(run: seq<Event>, item: Item, hash: Hash)
    requires HashOf(item, hash)
    ensures var ev, next := After(run), After(run + [Delivery(item)]);
            && (|next| == |ev| + 1 <==>
                  item.hasContent && item.readable && item.buildable && !LastHash(ev, item.identity, hash))
            && (|next| != |ev| + 1 ==> next == ev)
            && (|next| == |ev| + 1 ==>
                  next[|ev|].identity == item.identity && next[|ev|].hash == hash && next[|ev|].status == Current &&
                  next[|ev|].provider == item.provider)
            && (item.Accepted() || Repeats(ev, item) <==>
                  |next| == |ev| + 1 ||
                  (item.hasContent && item.readable && LastHash(ev, item.identity, hash)))
  {
    var ev := After(run);
    assert (run + [Delivery(item)])[..|run|] == run;
    RunKeepsChain(run);
    LatestIsLast(ev, item.identity, |ev|);
    var last := Latest(ev, item.identity, |ev|);
    if last.Some? { assert LastOf(ev, last.value); }
    assert item.ContentHash() == hash;
  }

  // ----- the pack's behaviors

  class Ledger {
    var evidence: seq<Evidence>
    var failures: nat

    constructor ()
      ensures evidence == After([]) && failures == 0
    {
      evidence, failures := [], 0;
    }

    method NormalizeAcquiredItem(item: Item)
      modifies this
      ensures evidence == Delivered(old(evidence), item)
      ensures failures == old(failures) + if item.Accepted() || Repeats(old(evidence), item) then 0 else 1
    {
      if !item.hasContent || !item.readable {
        failures := failures + 1;
        return;
      }
      var current: Option<nat> := None;
      for i := 0 to |evidence|
        invariant current == Latest(evidence, item.identity, i)
      {
        if evidence[i].identity == item.identity &&
            (current.None? || evidence[current.value].number <= evidence[i].number) {
          current := Some(i);
        }
      }
      if current.Some? && evidence[current.value].hash == item.ContentHash() { return; }
      if !item.buildable {
        failures := failures + 1;
        return;
      }
      var number := if current.Some? then evidence[current.value].number + 1 else 1;
      var revision := Evidence(item.identity, number, item.ContentHash(), Current, item.provider, current);
      if current.Some? {
        evidence := evidence[current.value := evidence[current.value].(status := Superseded)];
      }
      evidence := evidence + [revision];
    }

    method FulfillInvalidationRequest(t: Tombstone) returns (invalidated: seq<nat>)
      modifies this`evidence
      ensures evidence == Buried(old(evidence), t)
      ensures forall i :: i in invalidated <==>
                0 <= i < |evidence| && old(evidence)[i].status == Current && evidence[i].status == Revoked
    {
      invalidated := [];
      if !t.proposed {
        assert evidence == Buried(old(evidence), t);
        return;
      }
      for i := 0 to |evidence|
        invariant |evidence| == |old(evidence)|
        invariant forall k :: 0 <= k < i ==> evidence[k] == Revoke(old(evidence)[k], t)
        invariant forall k :: i <= k < |evidence| ==> evidence[k] == old(evidence)[k]
        invariant forall k :: k in invalidated <==>
                    0 <= k < i && old(evidence)[k].status == Current &&
                        Hits(t, old(evidence)[k].identity, old(evidence)[k].provider)
      {
        var e := evidence[i];
        if e.status == Current && Hits(t, e.identity, e.provider) {
          evidence := evidence[i := e.(status := Revoked)];
          invalidated := invalidated + [i];
        }
      }
    }
  }
}
