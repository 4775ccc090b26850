/** Idempotent materialisation of conversation threads, participants and messages, with the
    caches one batch shares (packs/communication/conversation.py).

    Identities are the tuples a stable id hashes, or names standing for them. */
module Conversation {
  import opened Prelude

  // ----- ordered sets of names: list(dict.fromkeys(...))

  function Dedup(s: seq<string>): (d: seq<string>)
    ensures Distinct(d) && forall x :: x in d <==> x in s
  {
    if s == [] then []
    else
      var d, last := Dedup(s[..|s| - 1]), s[|s| - 1];
      assert s == s[..|s| - 1] + [last];
      if last in d then d else d + [last]
  }

  lemma {:induction false} DedupAbsorbs(xs: seq<string>, ys: seq<string>)
    requires forall y :: y in ys ==> y in xs
    ensures Dedup(xs + ys) == Dedup(xs)
  {
    if ys == [] {
      assert xs + ys == xs;
    } else {
      assert (xs + ys)[..|xs + ys| - 1] == xs + ys[..|ys| - 1];
      DedupAbsorbs(xs, ys[..|ys| - 1]);
      assert ys[|ys| - 1] in ys;
    }
  }

  lemma {:induction false} DedupDistinct(xs: seq<string>)
    requires Distinct(xs)
    ensures Dedup(xs) == xs
  {
    if xs == [] {
    } else {
      DedupDistinct(xs[..|xs| - 1]);
      assert xs == xs[..|xs| - 1] + [xs[|xs| - 1]];
    }
  }

  /** Adding the same names again changes nothing. */
  lemma DedupTwice(xs: seq<string>, ys: seq<string>)
    ensures Dedup(Dedup(xs + ys) + ys) == Dedup(xs + ys)
  {
    DedupAbsorbs(Dedup(xs + ys), ys);
    DedupDistinct(Dedup(xs + ys));
  }

  // ----- objects

  datatype Thread = Thread(subject: string, participants: seq<string>, messages: seq<string>, messageCount: nat,
                           unreadCount: nat, labels: set<string>, refs: seq<string>, last: Option<int>)

  datatype Participant = Participant(roles: set<string>, refs: seq<string>)

  /** `body` stands for the payload fields no other object depends on. */
  datatype Message = Message(thread: string, unread: bool, body: string, refs: seq<string>)

  datatype Tag = Initial | Again(prior: nat)

  datatype RunKey = RunKey(message: string, revision: string, selection: string, profile: Option<string>,
                           extractors: seq<string>, tag: Tag)

  datatype RunStatus = Selected | DeterministicOnly | Held | Suppressed

  datatype Graph = Graph(threads: map<string, Thread>, participants: map<(string, string), Participant>,
                         mentions: set<string>,
                         messages: map<string, Message>, runs: map<RunKey, RunStatus>, requests: nat)

  const EMPTY := Graph(map[], map[], {}, map[], map[], 0)

  datatype Readiness = Ready | OnHold | NotForModels | NothingLeft

  /** One service message; `people` are the participants, addresses stripped and lower-cased. */
  datatype Input = Input(thread: string, message: string, subject: string, unread: bool, body: string,
                         sentAt: Option<int>,
                         labels: seq<string>, refs: seq<string>, people: seq<(string, set<string>)>, evidence: string,
                         revision: string, selection: string, hygiene: Readiness, reprocess: bool)

  /** The active profile with the extractors it routes model facets to, and the active policy. */
  datatype Env = Env(profile: Option<string>, extractors: seq<string>, policy: Option<nat>)

  /** A configured limit of 0 reads as the default. */
  function Limit(policy: Option<nat>): nat {
    if policy.Some? && policy.value != 0 then policy.value else 10
  }

  // ----- participants

  function Place(list: seq<(string, set<string>)>, address: string): Option<nat>
    ensures Place(list, address).Some? ==> Place(list, address).value < |list|
  {
    if list == [] then None
    else if list[|list| - 1].0 == address then Some(|list| - 1)
    else Place(list[..|list| - 1], address)
  }

  /** By address in order of first appearance, roles merged, blanks dropped. */
  function Merged(people: seq<(string, set<string>)>, n: nat): seq<(string, set<string>)>
    requires n <= |people|
  {
    if n == 0 then []
    else
      var before, address, roles := Merged(people, n - 1), people[n - 1].0, people[n - 1].1;
      var k := Place(before, address);
      if address == "" then before
      else if k.Some? then before[k.value := (address, before[k.value].1 + roles)]
      else before + [(address, roles)]
  }

  datatype People = People(participants: map<(string, string), Participant>, mentions: set<string>, ids: seq<string>)

  function Extra(x: Input): seq<string> { [x.evidence] + x.refs }

  function Joined(s: People, x: Input, address: string, roles: set<string>): People {
    var key := (x.thread, address);
    var ids := if address in s.ids then s.ids else s.ids + [address];
    if key in s.participants then
      var p := s.participants[key];
      People(s.participants[key := Participant(p.roles + roles, Dedup(p.refs + Extra(x)))], s.mentions, ids)
    else
      People(s.participants[key := Participant(roles, Dedup(Extra(x)))], s.mentions + {address}, ids)
  }

  function JoinedAll(s: People, x: Input, list: seq<(string, set<string>)>, n: nat): People
    requires n <= |list|
  {
    if n == 0 then s else Joined(JoinedAll(s, x, list, n - 1), x, list[n - 1].0, list[n - 1].1)
  }

  // ----- one materialisation

  function NewThread(x: Input): Thread {
    Thread(x.subject, [], [], 0, 0, (set l | l in x.labels), Dedup(x.refs), x.sentAt)
  }

  function ThreadBefore(g: Graph, x: Input): Thread {
    if x.thread in g.threads then g.threads[x.thread] else NewThread(x)
  }

  /** The unread counter before it is clipped at 0. */
  function UnreadSum(g: Graph, x: Input): int {
    var before := ThreadBefore(g, x).unreadCount;
    if x.message !in g.messages then before + (if x.unread then 1 else 0)
    else if g.messages[x.message].unread == x.unread then before
    else before + if x.unread then 1 else -1
  }

  function MessageOf(x: Input): Message { Message(x.thread, x.unread, x.body, Dedup([x.evidence] + x.refs)) }

  function Clip(n: int): nat { if n < 0 then 0 else n }

  function Later(last: Option<int>, sentAt: Option<int>): Option<int> {
    if sentAt.Some? && (last.None? || sentAt.value >= last.value) then sentAt else last
  }

  function ThreadAfter(t: Thread, x: Input, ids: seq<string>, unread: int): Thread {
    var messages := if x.message in t.messages then t.messages else t.messages + [x.message];
    Thread(if t.subject != "" then t.subject else x.subject, ids, messages, |messages|, Clip(unread),
           t.labels + (set l | l in x.labels), Dedup(t.refs + x.refs), Later(t.last, x.sentAt))
  }

  function RunsOf(runs: map<RunKey, RunStatus>, message: string): set<RunKey> {
    set k | k in runs && k.message == message
  }

  function KeyOf(g: Graph, x: Input, env: Env): RunKey {
    RunKey(x.message, x.revision, x.selection, env.profile, env.extractors,
           if x.reprocess then Again(|RunsOf(g.runs, x.message)|) else Initial)
  }

  predicate AsksModel(x: Input, env: Env, used: nat) {
    x.hygiene.Ready? && env.extractors != [] && used < Limit(env.policy)
  }

  function StatusOf(x: Input, env: Env, used: nat): RunStatus {
    match x.hygiene
    case OnHold => Held
    case NotForModels => Suppressed
    case NothingLeft => Suppressed
    case Ready => if AsksModel(x, env, used) then Selected else DeterministicOnly
  }

  /** The call's people, once the participants so far are known. */
  function PeopleOf(g: Graph, x: Input): People {
    JoinedAll(People(g.participants, g.mentions, ThreadBefore(g, x).participants), x, Merged(x.people, |x.people|),
              |Merged(x.people, |x.people|)|)
  }

  /** The graph with its thread, participants and message written. */
  function Written(g: Graph, x: Input): Graph {
    var t, p := ThreadBefore(g, x), PeopleOf(g, x);
    Graph(g.threads[x.thread := ThreadAfter(t, x, p.ids, UnreadSum(g, x))], p.participants, p.mentions,
          g.messages[x.message := MessageOf(x)], g.runs, g.requests)
  }

  /** `used` is the number of model requests made with the shared batch state. */
  function Materialized(g: Graph, used: nat, x: Input, env: Env): (Graph, nat) {
    var h, key := Written(g, x), KeyOf(g, x, env);
    if key in g.runs then (h, used)
    else if AsksModel(x, env, used) then
      (h.(runs := h.runs[key := StatusOf(x, env, used)], requests := h.requests + 1), used + 1)
    else (h.(runs := h.runs[key := StatusOf(x, env, used)]), used)
  }

  // ----- the counters

  predicate IsUnread(messages: map<string, Message>, m: string) { m in messages && messages[m].unread }

  function UnreadIn(messages: map<string, Message>, ids: seq<string>): nat {
    if ids == [] then 0
    else UnreadIn(messages, ids[..|ids| - 1]) + if IsUnread(messages, ids[|ids| - 1]) then 1 else 0
  }

  /** The thread lists exactly the messages that say they are in it, each once, and its two
      counters count them. */
  ghost predicate Tallies(g: Graph, thread: string)
    requires thread in g.threads
  {
    var t := g.threads[thread];
    && Distinct(t.messages)
    && (forall m :: m in t.messages <==> m in g.messages && g.messages[m].thread == thread)
    && t.messageCount == |t.messages| && t.unreadCount == UnreadIn(g.messages, t.messages)
  }

  ghost predicate Counts(g: Graph) {
    && (forall thread :: thread in g.threads ==> Tallies(g, thread))
    && (forall m :: m in g.messages ==> g.messages[m].thread in g.threads)
  }

  predicate Moves(g: Graph, x: Input) { x.message in g.messages && g.messages[x.message].thread != x.thread }

  lemma {:induction false} UnreadUpdate(messages: map<string, Message>, ids: seq<string>, m: string, v: Message)
    requires Distinct(ids)
    ensures UnreadIn(messages[m := v], ids) ==
            UnreadIn(messages, ids) +
            if m in ids then (if v.unread then 1 else 0) - (if IsUnread(messages, m) then 1 else 0) else 0
  {
    if ids == [] {
    } else {
      var init := ids[..|ids| - 1];
      assert ids == init + [ids[|ids| - 1]];
      UnreadUpdate(messages, init, m, v);
    }
  }

  /** While messages stay in their threads no call ever has to clip the unread counter. */
  lemma NeverClips(g: Graph, x: Input)
    requires Counts(g) && !Moves(g, x)
    ensures UnreadSum(g, x) >= 0
  {
    if IsUnread(g.messages, x.message) {
      assert Tallies(g, x.thread);
      UnreadPositive(g.messages, g.threads[x.thread].messages, x.message);
    }
  }

  lemma {:induction false} UnreadPositive(messages: map<string, Message>, ids: seq<string>, m: string)
    requires m in ids && IsUnread(messages, m)
    ensures UnreadIn(messages, ids) > 0
  {
    if ids[|ids| - 1] == m {
    } else {
      UnreadPositive(messages, ids[..|ids| - 1], m);
    }
  }

  /** What a call writes, as far as the counters are concerned. */
  ghost predicate Wrote(g: Graph, h: Graph, x: Input) {
    var t, m := ThreadBefore(g, x), x.message;
    && h.threads.Keys == g.threads.Keys + {x.thread}
    && (forall thread :: thread in g.threads && thread != x.thread ==> h.threads[thread] == g.threads[thread])
    && h.messages == g.messages[m := MessageOf(x)]
    && var u := h.threads[x.thread];
       && u.messages == (if m in t.messages then t.messages else t.messages + [m]) && u.messageCount == |u.messages|
       && u.unreadCount == Clip(UnreadSum(g, x))
  }

  lemma OtherThreadKept(g: Graph, h: Graph, x: Input, thread: string)
    requires Counts(g) && Wrote(g, h, x) && !Moves(g, x) && thread in g.threads && thread != x.thread
    ensures Tallies(h, thread)
  {
    var t := g.threads[thread];
    assert Tallies(g, thread);
    assert x.message !in t.messages;
    UnreadUpdate(g.messages, t.messages, x.message, MessageOf(x));
  }

  lemma OwnThreadBefore(g: Graph, x: Input)
    requires Counts(g)
    ensures var t := ThreadBefore(g, x);
            Distinct(t.messages) && t.unreadCount == UnreadIn(g.messages, t.messages) &&
            forall m :: m in t.messages <==> m in g.messages && g.messages[m].thread == x.thread
  {
    if x.thread in g.threads { assert Tallies(g, x.thread); }
  }

  lemma UnreadAppend(messages: map<string, Message>, ids: seq<string>, m: string)
    ensures UnreadIn(messages, ids + [m]) == UnreadIn(messages, ids) + if IsUnread(messages, m) then 1 else 0
  {
    assert (ids + [m])[..|ids|] == ids;
  }

  /** Listing a thread's message `m`, new or known, keeps the list exact and moves the count. */
  lemma ListAfter(messages: map<string, Message>, ids: seq<string>, m: string, v: Message)
    requires Distinct(ids)
    requires forall k :: k in ids <==> k in messages && messages[k].thread == v.thread
    requires m in messages ==> messages[m].thread == v.thread
    ensures var next := if m in ids then ids else ids + [m];
            Distinct(next) && (forall k :: k in next <==>
                               k in messages[m := v] && messages[m := v][k].thread == v.thread) &&
            UnreadIn(messages[m := v], next) ==
              UnreadIn(messages, ids) + (if v.unread then 1 else 0) - if IsUnread(messages, m) then 1 else 0
  {
    UnreadUpdate(messages, ids, m, v);
    UnreadAppend(messages[m := v], ids, m);
  }

  lemma OwnThreadKept(g: Graph, h: Graph, x: Input)
    requires Counts(g) && Wrote(g, h, x) && !Moves(g, x)
    ensures Tallies(h, x.thread)
  {
    NeverClips(g, x);
    OwnThreadBefore(g, x);
    ListAfter(g.messages, ThreadBefore(g, x).messages, x.message, MessageOf(x));
  }

  lemma MaterializedWrote(g: Graph, used: nat, x: Input, env: Env)
    ensures Wrote(g, Materialized(g, used, x, env).0, x)
  {
    WrittenWrote(g, x);
    var h := Materialized(g, used, x, env).0;
    assert h.threads == Written(g, x).threads && h.messages == Written(g, x).messages;
  }

  lemma WrittenWrote(g: Graph, x: Input)
    ensures Wrote(g, Written(g, x), x)
  {
  }

  lemma MovingBreaks(g: Graph, h: Graph, x: Input)
    requires Counts(g) && Wrote(g, h, x) && Moves(g, x)
    ensures !Counts(h)
  {
    var from := g.messages[x.message].thread;
    assert Tallies(g, from);
    assert x.message in h.threads[from].messages && h.messages[x.message].thread == x.thread;
    assert !Tallies(h, from);
  }

  lemma StayingKeeps(g: Graph, h: Graph, x: Input)
    requires Counts(g) && Wrote(g, h, x) && !Moves(g, x)
    ensures Counts(h)
  {
    forall thread | thread in h.threads ensures Tallies(h, thread) {
      if thread == x.thread { OwnThreadKept(g, h, x); } else { OtherThreadKept(g, h, x, thread); }
    }
    forall m | m in h.messages ensures h.messages[m].thread in h.threads.Keys {
      if m != x.message { assert m in g.messages && g.messages[m].thread in g.threads.Keys; }
    }
  }

  /** A call keeps the counters right if and only if it does not move a message to another thread. */
  lemma CountsKeptIff(g: Graph, used: nat, x: Input, env: Env)
    requires Counts(g)
    ensures Counts(Materialized(g, used, x, env).0) <==> !Moves(g, x)
  {
    var h := Materialized(g, used, x, env).0;
    MaterializedWrote(g, used, x, env);
    if Moves(g, x) { MovingBreaks(g, h, x); } else { StayingKeeps(g, h, x); }
  }

  // ----- runs of any number of batches

  /** A new batch brings a fresh state dictionary, and with it a fresh count of model requests. */
  datatype Event = NewBatch | Call(input: Input, env: Env)

  /** The graph, and the model requests of the current batch. */
  function Step(before: (Graph, nat), e: Event): (Graph, nat) {
    match e
    case NewBatch => (before.0, 0)
    case Call(x, env) => Materialized(before.0, before.1, x, env)
  }

  function From(start: (Graph, nat), run: seq<Event>): (Graph, nat) {
    if run == [] then start else Step(From(start, run[..|run| - 1]), run[|run| - 1])
  }

  function After(run: seq<Event>): (Graph, nat) { From((EMPTY, 0), run) }

  /** A message keeps its thread throughout the run, across batches too. */
  ghost predicate StayInThreads(run: seq<Event>) {
    forall i, j ::
      0 <= i < j < |run| && run[i].Call? && run[j].Call? && run[i].input.message == run[j].input.message ==>
      run[i].input.thread == run[j].input.thread
  }

  /** Call `i` of the run delivers the message in this thread. */
  ghost predicate Delivers(run: seq<Event>, i: nat, m: string, thread: string) {
    i < |run| && run[i].Call? && run[i].input.message == m && run[i].input.thread == thread
  }

  lemma StepMessages(g: Graph, used: nat, x: Input, env: Env)
    ensures Materialized(g, used, x, env).0.messages == g.messages[x.message := MessageOf(x)]
  {
  }

  lemma {:induction false} MessagesComeFromRun(run: seq<Event>, m: string) returns (i: nat)
    requires m in After(run).0.messages
    ensures Delivers(run, i, m, After(run).0.messages[m].thread)
  {
    var init, last := run[..|run| - 1], run[|run| - 1];
    if last.Call? { StepMessages(After(init).0, After(init).1, last.input, last.env); }
    if last.Call? && last.input.message == m {
      i := |run| - 1;
    } else {
      i := MessagesComeFromRun(init, m);
      assert run[i] == init[i];
    }
  }

  lemma LastStays(run: seq<Event>)
    requires run != [] && StayInThreads(run) && run[|run| - 1].Call?
    ensures !Moves(After(run[..|run| - 1]).0, run[|run| - 1].input)
  {
    var init, m := run[..|run| - 1], run[|run| - 1].input.message;
    if m in After(init).0.messages {
      var i := MessagesComeFromRun(init, m);
      assert run[i] == init[i];
    }
  }

  /** Over every run of batches in which messages stay in their threads the counters are right. */
  lemma {:induction false} RunCounts(run: seq<Event>)
    requires StayInThreads(run)
    ensures Counts(After(run).0)
  {
    if run == [] {
    } else {
      var init, e := run[..|run| - 1], run[|run| - 1];
      RunCounts(init);
      if e.Call? {
        LastStays(run);
        CountsKeptIff(After(init).0, After(init).1, e.input, e.env);
      }
    }
  }

  /** The calls of a run work under limits of at most `limit`. */
  ghost predicate Limited(run: seq<Event>, limit: nat) {
    forall e :: e in run && e.Call? ==> Limit(e.env.policy) <= limit
  }

  /** The batches of a run that are over. */
  function Closed(run: seq<Event>): nat {
    if run == [] then 0 else Closed(run[..|run| - 1]) + if run[|run| - 1].NewBatch? then 1 else 0
  }

  lemma StepRequests(s: (Graph, nat), e: Event, limit: nat) returns (r: (Graph, nat))
    requires s.1 <= limit && (e.Call? ==> Limit(e.env.policy) <= limit)
    ensures r == Step(s, e) && r.1 <= limit
    ensures r.0.requests == s.0.requests + if e.Call? then r.1 - s.1 else 0
    ensures e.NewBatch? ==> r.1 == 0
  {
    r := Step(s, e);
  }

  /** One batch, from whatever graph the batches before it left: its model requests stay within
      the effective limit, and each is counted once. */
  lemma {:induction false} BatchWithinLimit(g: Graph, batch: seq<Event>, limit: nat) returns (h: (Graph, nat))
    requires Limited(batch, limit) && NewBatch !in batch
    ensures h == From((g, 0), batch) && h.1 <= limit && h.0.requests == g.requests + h.1
  {
    if batch == [] {
      h := (g, 0);
    } else {
      var e := batch[|batch| - 1];
      assert e in batch;
      var m := BatchWithinLimit(g, batch[..|batch| - 1], limit);
      h := StepRequests(m, e, limit);
    }
  }

  /** The batches of a run begin where the ones before them ended. */
  lemma {:induction false} BatchStarts(before: seq<Event>, batch: seq<Event>)
    ensures After(before + [NewBatch] + batch) == From((After(before).0, 0), batch)
    decreases |batch|
  {
    var run := before + [NewBatch] + batch;
    if batch == [] {
      assert run == before + [NewBatch] && run[..|run| - 1] == before;
    } else {
      assert run[..|run| - 1] == before + [NewBatch] + batch[..|batch| - 1];
      BatchStarts(before, batch[..|batch| - 1]);
    }
  }

  lemma Carry(limit: nat, closed: nat, requests: nat, used: nat)
    requires requests <= limit * closed + used && used <= limit
    ensures requests <= limit * (closed + 1)
  {
    assert limit * (closed + 1) == limit * closed + limit;
  }

  /** Over every run of batches: the current batch is within the limit, and each closed batch has
      added no more than the limit to the requests. */
  lemma {:induction false} RequestsWithinLimit(run: seq<Event>, limit: nat) returns (s: (Graph, nat), closed: nat)
    requires Limited(run, limit)
    ensures s == After(run) && closed == Closed(run)
    ensures s.1 <= limit && s.0.requests <= limit * closed + s.1
  {
    if run == [] {
      s, closed := (EMPTY, 0), 0;
    } else {
      var e := run[|run| - 1];
      var before, c := RequestsWithinLimit(run[..|run| - 1], limit);
      assert e in run;
      s := StepRequests(before, e, limit);
      closed := if e.NewBatch? then c + 1 else c;
      if e.NewBatch? { Carry(limit, c, before.0.requests, before.1); }
    }
  }

  ghost predicate UnderPolicy(run: seq<Event>, n: nat) { forall e :: e in run && e.Call? ==> e.env.policy == Some(n) }

  /** Under one policy every batch of every run stays within the configured limit if and only if
      that limit is not 0: a limit of 0 allows ten. */
  lemma ConfiguredLimitKeptIff(n: nat)
    ensures (forall run :: UnderPolicy(run, n) ==> After(run).1 <= n) <==> n != 0
  {
    if n == 0 {
      var x := Input("t", "m", "", false, "", None, [], [], [], "e", "r", "s", Ready, false);
      var run := [Call(x, Env(None, ["model"], Some(0)))];
      assert run[..0] == [] && From((EMPTY, 0), []) == (EMPTY, 0);
      assert After(run) == Step((EMPTY, 0), run[0]);
      assert UnderPolicy(run, n);
    } else {
      forall run | UnderPolicy(run, n) ensures After(run).1 <= n {
        var s, _ := RequestsWithinLimit(run, n);
      }
    }
  }

  // ----- what a call writes, field by field

  /** The address is named in the first `n` of the list. */
  ghost predicate NamedIn(people: seq<(string, set<string>)>, n: nat, address: string) {
    exists k :: 0 <= k < n && k < |people| && people[k].0 == address
  }

  /** Address `i` is named before address `j` is. */
  ghost predicate NamedFirst(people: seq<(string, set<string>)>, address: string, other: string) {
    exists k: nat :: k < |people| && people[k].0 == address && !NamedIn(people, k + 1, other)
  }

  ghost predicate HasRole(people: seq<(string, set<string>)>, n: nat, address: string, role: string) {
    exists k :: 0 <= k < n && k < |people| && people[k].0 == address && role in people[k].1
  }

  lemma {:induction false} PlaceIff(list: seq<(string, set<string>)>, address: string)
    ensures Place(list, address).Some? <==> NamedIn(list, |list|, address)
    ensures Place(list, address).Some? ==> list[Place(list, address).value].0 == address
  {
    if list == [] {
    } else {
      var init := list[..|list| - 1];
      PlaceIff(init, address);
      assert NamedIn(list, |list|, address) <==> NamedIn(init, |init|, address) || list[|list| - 1].0 == address;
    }
  }

  /** What merging has made of the first `n` people. */
  ghost predicate MergedFrom(people: seq<(string, set<string>)>, n: nat, m: seq<(string, set<string>)>) {
    && (forall i :: 0 <= i < |m| ==> m[i].0 != "" && NamedIn(people, n, m[i].0))
    && (forall i, j :: 0 <= i < j < |m| ==> m[i].0 != m[j].0)
    && (forall a :: a != "" && NamedIn(people, n, a) ==> NamedIn(m, |m|, a))
    && (forall i, role :: 0 <= i < |m| ==> (role in m[i].1 <==> HasRole(people, n, m[i].0, role)))
    && (forall i, j :: 0 <= i < j < |m| ==> NamedFirst(people, m[i].0, m[j].0))
  }

  lemma NextNamed(people: seq<(string, set<string>)>, n: nat, a: string, role: string)
    requires n < |people|
    ensures NamedIn(people, n + 1, a) <==> NamedIn(people, n, a) || people[n].0 == a
    ensures HasRole(people, n + 1, a, role) <==>
            HasRole(people, n, a, role) || (people[n].0 == a && role in people[n].1)
  {
  }

  lemma MergedKnown(people: seq<(string, set<string>)>, n: nat, m: seq<(string, set<string>)>, k: nat)
    requires n < |people| && MergedFrom(people, n, m) && k < |m| && people[n].0 == m[k].0
    ensures MergedFrom(people, n + 1, m[k := (m[k].0, m[k].1 + people[n].1)])
  {
    var next := m[k := (m[k].0, m[k].1 + people[n].1)];
    forall a, role ensures NamedIn(people, n + 1, a) <==> NamedIn(people, n, a) || people[n].0 == a
      ensures HasRole(people, n + 1, a, role) <==>
              HasRole(people, n, a, role) || (people[n].0 == a && role in people[n].1)
    {
      NextNamed(people, n, a, role);
    }
    forall a ensures NamedIn(next, |next|, a) <==> NamedIn(m, |m|, a) {
      if i :| 0 <= i < |m| && m[i].0 == a { assert next[i].0 == a; }
      if i :| 0 <= i < |next| && next[i].0 == a { assert m[i].0 == a; }
    }
    forall i, role | 0 <= i < |next| ensures role in next[i].1 <==> HasRole(people, n + 1, next[i].0, role) {
      assert next[i].0 == m[i].0;
    }
  }

  lemma MergedNew(people: seq<(string, set<string>)>, n: nat, m: seq<(string, set<string>)>)
    requires n < |people| && MergedFrom(people, n, m) && people[n].0 != "" && !NamedIn(m, |m|, people[n].0)
    ensures MergedFrom(people, n + 1, m + [people[n]])
  {
    var next, b := m + [people[n]], people[n].0;
    forall a, role ensures NamedIn(people, n + 1, a) <==> NamedIn(people, n, a) || b == a
      ensures HasRole(people, n + 1, a, role) <==> HasRole(people, n, a, role) || (b == a && role in people[n].1)
    {
      NextNamed(people, n, a, role);
    }
    assert !NamedIn(people, n, b);
    assert forall role :: !HasRole(people, n, b, role);
    forall a ensures NamedIn(next, |next|, a) <==> NamedIn(m, |m|, a) || a == b {
      if i :| 0 <= i < |m| && m[i].0 == a { assert next[i].0 == a; }
      if i :| 0 <= i < |next| && next[i].0 == a && i < |m| { assert m[i].0 == a; }
      assert next[|m|].0 == b;
    }
    forall i | 0 <= i < |m| ensures m[i].0 != b && NamedFirst(people, m[i].0, b) {
      assert m[i].0 != b;
      var k :| 0 <= k < n && k < |people| && people[k].0 == m[i].0;
      assert !NamedIn(people, k + 1, b);
    }
  }

  lemma MergedNext(people: seq<(string, set<string>)>, n: nat, m: seq<(string, set<string>)>, next: nat,
                   after: seq<(string, set<string>)>)
    requires next == n + 1 <= |people| && m == Merged(people, n) && MergedFrom(people, n, m)
    requires after == Merged(people, next)
    ensures MergedFrom(people, next, after)
  {
    PlaceIff(m, people[n].0);
    if people[n].0 == "" {
      MergedBlank(people, n, m);
    } else if Place(m, people[n].0).Some? {
      MergedKnown(people, n, m, Place(m, people[n].0).value);
    } else {
      MergedNew(people, n, m);
    }
  }

  /** The people of a call: every address that is not blank, once, in order of first appearance, with
      all its roles. */
  lemma {:induction false} MergedExactly(people: seq<(string, set<string>)>, n: nat)
    requires n <= |people|
    ensures MergedFrom(people, n, Merged(people, n))
  {
    if n == 0 {
    } else {
      MergedExactly(people, n - 1);
      MergedNext(people, n - 1, Merged(people, n - 1), n, Merged(people, n));
    }
  }

  lemma MergedBlank(people: seq<(string, set<string>)>, n: nat, m: seq<(string, set<string>)>)
    requires n < |people| && MergedFrom(people, n, m) && people[n].0 == ""
    ensures MergedFrom(people, n + 1, m)
  {
    forall a, role ensures NamedIn(people, n + 1, a) <==> NamedIn(people, n, a) || people[n].0 == a
      ensures HasRole(people, n + 1, a, role) <==>
              HasRole(people, n, a, role) || (people[n].0 == a && role in people[n].1)
    {
      NextNamed(people, n, a, role);
    }
  }

  /** What joining the first `n` of a list makes of one address in one thread. */
  ghost predicate JoinedAt(s: People, x: Input, list: seq<(string, set<string>)>, n: nat, p: People,
                           key: (string, string), role: string, ref: string) {
    var joins, known := key.0 == x.thread && NamedIn(list, n, key.1), key in s.participants;
    && (key in p.participants <==> known || joins)
    && (known && !joins ==> p.participants[key] == s.participants[key])
    && (joins ==>
          (role in p.participants[key].roles <==>
             HasRole(list, n, key.1, role) || (known && role in s.participants[key].roles)) &&
          (ref in p.participants[key].refs <==>
             ref == x.evidence || ref in x.refs || (known && ref in s.participants[key].refs)))
  }

  /** Joining creates the participants that are missing and adds roles and references to the others;
      other threads' participants stay as they are. */
  lemma {:induction false} JoinedExactly(s: People, x: Input, list: seq<(string, set<string>)>, n: nat,
                                         key: (string, string), role: string, ref: string)
    requires n <= |list|
    ensures JoinedAt(s, x, list, n, JoinedAll(s, x, list, n), key, role, ref)
  {
    if n == 0 {
      assert !NamedIn(list, 0, key.1);
    } else {
      JoinedExactly(s, x, list, n - 1, key, role, ref);
      NextNamed(list, n - 1, key.1, role);
      RoleNamed(list, n - 1, key.1, role);
      JoinedNext(s, x, list, n - 1, JoinedAll(s, x, list, n - 1), key, role, ref);
    }
  }

  lemma RoleNamed(list: seq<(string, set<string>)>, n: nat, address: string, role: string)
    ensures HasRole(list, n, address, role) ==> NamedIn(list, n, address)
  {
  }

  lemma JoinedNext(s: People, x: Input, list: seq<(string, set<string>)>, n: nat, p: People, key: (string, string),
                   role: string, ref: string)
    requires n < |list| && JoinedAt(s, x, list, n, p, key, role, ref)
    requires HasRole(list, n, key.1, role) ==> NamedIn(list, n, key.1)
    requires NamedIn(list, n + 1, key.1) <==> NamedIn(list, n, key.1) || list[n].0 == key.1
    requires HasRole(list, n + 1, key.1, role) <==>
             HasRole(list, n, key.1, role) || (list[n].0 == key.1 && role in list[n].1)
    ensures JoinedAt(s, x, list, n + 1, Joined(p, x, list[n].0, list[n].1), key, role, ref)
  {
    if key == (x.thread, list[n].0) {
    } else {
      assert key in Joined(p, x, list[n].0, list[n].1).participants <==> key in p.participants;
    }
  }

  /** The thread lists who joined; whoever joined as a new participant is mentioned. */
  lemma {:induction false} JoinedIds(s: People, x: Input, list: seq<(string, set<string>)>, n: nat, a: string)
    requires n <= |list|
    ensures var p := JoinedAll(s, x, list, n);
            && (a in p.ids <==> a in s.ids || NamedIn(list, n, a))
            && (a in p.mentions <==> a in s.mentions || (NamedIn(list, n, a) && (x.thread, a) !in s.participants))
            && ((x.thread, a) in p.participants <==> (x.thread, a) in s.participants || NamedIn(list, n, a))
  {
    if n == 0 {
    } else {
      JoinedIds(s, x, list, n - 1, a);
      NextNamed(list, n - 1, a, "");
    }
  }

  lemma MergedSame(people: seq<(string, set<string>)>, a: string, role: string)
    requires a != ""
    ensures var m := Merged(people, |people|);
            (NamedIn(m, |m|, a) <==> NamedIn(people, |people|, a)) &&
            (HasRole(m, |m|, a, role) <==> HasRole(people, |people|, a, role))
  {
    var m := Merged(people, |people|);
    MergedExactly(people, |people|);
    if i :| 0 <= i < |m| && m[i].0 == a { assert role in m[i].1 <==> HasRole(people, |people|, m[i].0, role); }
    if HasRole(people, |people|, a, role) { assert NamedIn(people, |people|, a); }
  }

  /** After a call every address it names is a participant of its thread, with the roles it had and the
      roles the call gives it; no one else has become one. */
  lemma CallJoins(g: Graph, used: nat, x: Input, env: Env, a: string, role: string)
    requires a != ""
    ensures var h := Materialized(g, used, x, env).0;
            var key, named := (x.thread, a), NamedIn(x.people, |x.people|, a);
            && (key in h.participants <==> key in g.participants || named)
            && (named ==> (role in h.participants[key].roles <==>
                             HasRole(x.people, |x.people|, a, role) ||
                             (key in g.participants && role in g.participants[key].roles)))
            && (key in g.participants && !named ==> h.participants[key] == g.participants[key])
            && (a in h.threads[x.thread].participants <==> a in ThreadBefore(g, x).participants || named)
  {
    var m := Merged(x.people, |x.people|);
    var start := People(g.participants, g.mentions, ThreadBefore(g, x).participants);
    MergedSame(x.people, a, role);
    JoinedExactly(start, x, m, |m|, (x.thread, a), role, "");
    JoinedIds(start, x, m, |m|, a);
    MaterializedPeople(g, used, x, env);
  }

  lemma MaterializedPeople(g: Graph, used: nat, x: Input, env: Env)
    ensures var h, p := Materialized(g, used, x, env).0, PeopleOf(g, x);
            h.participants == p.participants && h.mentions == p.mentions && h.threads[x.thread].participants == p.ids
  {
  }

  /** The thread keeps a subject it has, gathers labels and references, and remembers the latest time;
      its counters count its messages and never fall below 0. */
  lemma ThreadExactly(g: Graph, x: Input)
    ensures var t, u := ThreadBefore(g, x), Written(g, x).threads[x.thread];
            && u.subject == (if t.subject == "" then x.subject else t.subject)
            && (forall l :: l in u.labels <==> l in t.labels || l in x.labels)
            && (forall r :: r in u.refs <==> r in t.refs || r in x.refs)
            && (forall m :: m in u.messages <==> m in t.messages || m == x.message)
            && u.messageCount == |u.messages| && (UnreadSum(g, x) < 0 ==> u.unreadCount == 0)
            && (UnreadSum(g, x) >= 0 ==> u.unreadCount == UnreadSum(g, x))
            && (u.last == None <==> t.last == None && x.sentAt == None)
            && (t.last != None ==> u.last != None && t.last.value <= u.last.value)
            && (x.sentAt != None ==> u.last != None && x.sentAt.value <= u.last.value)
            && (u.last != None ==> u.last == t.last || u.last == x.sentAt)
  {
  }

  /** A new thread has the call's subject, labels, references and time, and nothing else. */
  lemma NewThreadIs(g: Graph, x: Input)
    requires x.thread !in g.threads
    ensures var t := ThreadBefore(g, x);
            && t.subject == x.subject && t.participants == [] && t.messages == [] && t.unreadCount == 0
            && t.last == x.sentAt && (forall l :: l in t.labels <==> l in x.labels)
            && forall r :: r in t.refs <==> r in x.refs
  {
  }

  /** The message is what the call says of it. */
  lemma MessageExactly(g: Graph, used: nat, x: Input, env: Env)
    ensures var h := Materialized(g, used, x, env).0;
            && h.messages.Keys == g.messages.Keys + {x.message}
            && (forall m :: m in g.messages && m != x.message ==> h.messages[m] == g.messages[m])
            && var m := h.messages[x.message];
               m.thread == x.thread && m.unread == x.unread && m.body == x.body &&
               forall r :: r in m.refs <==> r == x.evidence || r in x.refs
  {
    MaterializedMessages(g, used, x, env);
  }

  lemma MaterializedMessages(g: Graph, used: nat, x: Input, env: Env)
    ensures Materialized(g, used, x, env).0.messages == g.messages[x.message := MessageOf(x)]
  {
  }

  // ----- which messages ask a model

  /** A message that is not ready asks nothing: its new run is held or suppressed. */
  lemma UnreadyAsksNothing(g: Graph, used: nat, x: Input, env: Env)
    requires x.hygiene != Ready
    ensures var (h, spent) := Materialized(g, used, x, env);
            h.requests == g.requests && spent == used &&
            forall k :: k in h.runs && k !in g.runs ==> h.runs[k] == if x.hygiene == OnHold then Held else Suppressed
  {
  }

  /** The number of calls a batch may make: ten unless the policy says otherwise. */
  ghost predicate Allowance(policy: Option<nat>, n: nat) {
    match policy
    case None => n == 10
    case Some(m) => n == (if m == 0 then 10 else m)
  }

  /** The call opens a run for its message, which had none of the key before. */
  ghost predicate Opens(g: Graph, h: Graph, k: RunKey) { h.runs.Keys == g.runs.Keys + {k} && k !in g.runs }

  /** A call that opens a run asks a model if and only if the message is ready, the profile routes a
      facet to an extractor, and the batch has requests left; the run then is selected, and a ready
      message's run is deterministic otherwise.  A call that opens none asks nothing. */
  lemma RequestIff(g: Graph, used: nat, x: Input, env: Env, n: nat)
    requires Allowance(env.policy, n)
    ensures var (h, spent) := Materialized(g, used, x, env);
            && h.requests - g.requests == spent - used && h.requests - g.requests in {0, 1}
            && (h.runs == g.runs ==> h.requests == g.requests)
            && forall k :: Opens(g, h, k) ==>
                 (h.requests == g.requests + 1 <==> x.hygiene == Ready && env.extractors != [] && used < n) &&
                 (x.hygiene == Ready ==>
                    h.runs[k] == if h.requests == g.requests + 1 then Selected else DeterministicOnly)
  {
  }

  /** Which run a call opens: of this message, revision and selection under this profile and these
      extractors, the first one, or with reprocess one more; none if that run is there. */
  lemma OpensIff(g: Graph, used: nat, x: Input, env: Env)
    ensures var h := Materialized(g, used, x, env).0;
            var tag := if x.reprocess then Again(|set k | k in g.runs && k.message == x.message|) else Initial;
            var key := RunKey(x.message, x.revision, x.selection, env.profile, env.extractors, tag);
            if key in g.runs then h.runs == g.runs else Opens(g, h, key)
  {
    assert RunsOf(g.runs, x.message) == set k | k in g.runs && k.message == x.message;
  }

  function SelectedRuns(runs: map<RunKey, RunStatus>): set<RunKey> { set k | k in runs && runs[k] == Selected }

  lemma StepSelected(s: (Graph, nat), e: Event)
    requires s.0.requests == |SelectedRuns(s.0.runs)|
    ensures Step(s, e).0.requests == |SelectedRuns(Step(s, e).0.runs)|
  {
    if e.Call? {
      var g, h, key := s.0, Step(s, e).0, KeyOf(s.0, e.input, e.env);
      if key !in g.runs {
        if AsksModel(e.input, e.env, s.1) {
          assert SelectedRuns(h.runs) == SelectedRuns(g.runs) + {key};
        } else {
          assert SelectedRuns(h.runs) == SelectedRuns(g.runs);
        }
      }
    }
  }

  /** Over every run of batches there is one model request for each selected run. */
  lemma {:induction false} RequestsAreSelected(run: seq<Event>)
    ensures After(run).0.requests == |SelectedRuns(After(run).0.runs)|
  {
    if run == [] {
      assert SelectedRuns(EMPTY.runs) == {};
    } else {
      RequestsAreSelected(run[..|run| - 1]);
      StepSelected(After(run[..|run| - 1]), run[|run| - 1]);
    }
  }

  // ----- repeating a call

  /** A participant the call has nothing to add to. */
  ghost predicate Settled(s: People, x: Input, address: string, roles: set<string>) {
    && address in s.ids && (x.thread, address) in s.participants
    && var p := s.participants[(x.thread, address)]; roles <= p.roles && Dedup(p.refs + Extra(x)) == p.refs
  }

  lemma JoinedSettles(s: People, x: Input, address: string, roles: set<string>)
    ensures Settled(Joined(s, x, address, roles), x, address, roles)
  {
    var key := (x.thread, address);
    if key in s.participants {
      DedupTwice(s.participants[key].refs, Extra(x));
    } else {
      assert [] + Extra(x) == Extra(x);
      DedupTwice([], Extra(x));
    }
  }

  lemma SettledStays(s: People, x: Input, address: string, roles: set<string>, other: string, more: set<string>)
    requires Settled(s, x, address, roles)
    ensures Settled(Joined(s, x, other, more), x, address, roles)
  {
    if other == address { DedupTwice(s.participants[(x.thread, address)].refs, Extra(x)); }
  }

  lemma {:induction false} AllSettled(s: People, x: Input, list: seq<(string, set<string>)>, n: nat, k: nat)
    requires k < n <= |list|
    ensures Settled(JoinedAll(s, x, list, n), x, list[k].0, list[k].1)
    decreases n
  {
    if k == n - 1 {
      JoinedSettles(JoinedAll(s, x, list, n - 1), x, list[k].0, list[k].1);
    } else {
      AllSettled(s, x, list, n - 1, k);
      SettledStays(JoinedAll(s, x, list, n - 1), x, list[k].0, list[k].1, list[n - 1].0, list[n - 1].1);
    }
  }

  lemma SettledUnchanged(s: People, x: Input, address: string, roles: set<string>)
    requires Settled(s, x, address, roles)
    ensures Joined(s, x, address, roles) == s
  {
    var p := s.participants[(x.thread, address)];
    assert p.roles + roles == p.roles;
    assert s.participants[(x.thread, address) := p] == s.participants;
  }

  lemma {:induction false} JoinedAgain(s: People, x: Input, list: seq<(string, set<string>)>, n: nat)
    requires n <= |list| && SettledAll(s, x, list)
    ensures JoinedAll(s, x, list, n) == s
  {
    if n == 0 {
    } else {
      JoinedAgain(s, x, list, n - 1);
      SettledAt(s, x, list, n - 1);
    }
  }

  ghost predicate SettledAll(s: People, x: Input, list: seq<(string, set<string>)>) {
    forall k :: 0 <= k < |list| ==> Settled(s, x, list[k].0, list[k].1)
  }

  lemma SettledAt(s: People, x: Input, list: seq<(string, set<string>)>, k: nat)
    requires k < |list| && SettledAll(s, x, list)
    ensures Joined(s, x, list[k].0, list[k].1) == s
  {
    SettledUnchanged(s, x, list[k].0, list[k].1);
  }

  lemma ThreadAgain(t: Thread, x: Input, ids: seq<string>, unread: int)
    ensures var u := ThreadAfter(t, x, ids, unread); ThreadAfter(u, x, ids, u.unreadCount) == u
  {
    DedupTwice(t.refs, x.refs);
    var u := ThreadAfter(t, x, ids, unread);
    assert u.labels + (set l | l in x.labels) == u.labels;
  }

  lemma PeopleAgain(start: People, x: Input, list: seq<(string, set<string>)>)
    ensures var p := JoinedAll(start, x, list, |list|); JoinedAll(p, x, list, |list|) == p
  {
    var p := JoinedAll(start, x, list, |list|);
    forall k | 0 <= k < |list| ensures Settled(p, x, list[k].0, list[k].1) { AllSettled(start, x, list, |list|, k); }
    JoinedAgain(p, x, list, |list|);
  }

  lemma SameWrite(g: Graph, x: Input, p: People, t: Thread, n: int)
    requires x.thread in g.threads && g.threads[x.thread] == t && ThreadAfter(t, x, p.ids, t.unreadCount) == t
    requires x.message in g.messages && g.messages[x.message] == MessageOf(x)
    requires p == People(g.participants, g.mentions, t.participants) && PeopleOf(g, x) == p
    ensures Written(g, x) == g
  {
    assert g.threads[x.thread := t] == g.threads;
    assert g.messages[x.message := MessageOf(x)] == g.messages;
    assert UnreadSum(g, x) == t.unreadCount;
  }

  lemma WrittenAgain(g: Graph, x: Input)
    ensures Written(Written(g, x), x) == Written(g, x)
  {
    var p, h := PeopleOf(g, x), Written(g, x);
    var u := ThreadAfter(ThreadBefore(g, x), x, p.ids, UnreadSum(g, x));
    PeopleAgain(People(g.participants, g.mentions, ThreadBefore(g, x).participants), x, Merged(x.people, |x.people|));
    ThreadAgain(ThreadBefore(g, x), x, p.ids, UnreadSum(g, x));
    assert h.threads[x.thread] == u && u.participants == p.ids;
    assert p == People(h.participants, h.mentions, u.participants);
    SameWrite(h, x, p, u, UnreadSum(g, x));
  }

  /** Repeating a call without `reprocess`, under an unchanged profile, in the same batch or in a
      later one, changes nothing: no object, no counter, no further model request. */
  lemma RepeatChangesNothing(g: Graph, used: nat, x: Input, env: Env, later: nat)
    requires !x.reprocess
    ensures var h := Materialized(g, used, x, env).0; Materialized(h, later, x, env) == (h, later)
  {
    var h := Materialized(g, used, x, env).0;
    WrittenAgain(g, x);
    assert KeyOf(h, x, env) in h.runs;
    WrittenIgnoresRuns(Written(g, x), h, x);
  }

  lemma WrittenIgnoresRuns(g: Graph, h: Graph, x: Input)
    requires h == g.(runs := h.runs, requests := h.requests)
    ensures Written(h, x) == Written(g, x).(runs := h.runs, requests := h.requests)
  {
    assert ThreadBefore(h, x) == ThreadBefore(g, x) && UnreadSum(h, x) == UnreadSum(g, x) &&
           PeopleOf(h, x) == PeopleOf(g, x);
    WrittenIs(g, x);
    WrittenIs(h, x);
  }

  /** A reprocessing run is tagged with the number of runs before it. */
  ghost predicate TagsBelow(g: Graph) {
    forall k :: k in g.runs && k.tag.Again? ==> k.tag.prior < |RunsOf(g.runs, k.message)|
  }

  lemma RunAdded(runs: map<RunKey, RunStatus>, key: RunKey, status: RunStatus)
    requires key !in runs
    ensures RunsOf(runs[key := status], key.message) == RunsOf(runs, key.message) + {key}
    ensures |RunsOf(runs[key := status], key.message)| == |RunsOf(runs, key.message)| + 1
    ensures forall m :: m != key.message ==> RunsOf(runs[key := status], m) == RunsOf(runs, m)
  {
  }

  lemma TagsStay(g: Graph, h: Graph, key: RunKey, status: RunStatus)
    requires TagsBelow(g) && key !in g.runs && h.runs == g.runs[key := status]
    requires key.tag.Again? ==> key.tag.prior == |RunsOf(g.runs, key.message)|
    ensures TagsBelow(h) && |RunsOf(h.runs, key.message)| == |RunsOf(g.runs, key.message)| + 1
  {
    RunAdded(g.runs, key, status);
    forall k | k in h.runs && k.tag.Again? ensures k.tag.prior < |RunsOf(h.runs, k.message)| {
      assert k != key ==> k in g.runs;
    }
  }

  lemma MaterializedRuns(g: Graph, used: nat, x: Input, env: Env)
    requires TagsBelow(g)
    ensures var h := Materialized(g, used, x, env).0;
            TagsBelow(h) && (x.reprocess ==> |RunsOf(h.runs, x.message)| == |RunsOf(g.runs, x.message)| + 1)
  {
    var key, h := KeyOf(g, x, env), Materialized(g, used, x, env).0;
    if key in g.runs {
      assert h.runs == g.runs;
    } else {
      TagsStay(g, h, key, StatusOf(x, env, used));
    }
  }

  lemma {:induction false} RunTags(run: seq<Event>)
    ensures TagsBelow(After(run).0)
  {
    if run == [] {
    } else {
      var init, e := run[..|run| - 1], run[|run| - 1];
      RunTags(init);
      if e.Call? { MaterializedRuns(After(init).0, After(init).1, e.input, e.env); }
    }
  }

  /** After every run of batches a call with `reprocess` opens one more run of its message. */
  lemma ReprocessAddsRun(run: seq<Event>, x: Input, env: Env)
    requires x.reprocess
    ensures var g := After(run);
            |RunsOf(Materialized(g.0, g.1, x, env).0.runs, x.message)| == |RunsOf(g.0.runs, x.message)| + 1
  {
    RunTags(run);
    MaterializedRuns(After(run).0, After(run).1, x, env);
  }

  /** An unread message delivered, then delivered read into a second, new thread: the first
      thread keeps counting it, and the second has its unread counter clipped from -1. */
  lemma MovingExample(x: Input, y: Input, env: Env)
    requires x.unread && !y.unread && x.message == y.message && x.thread != y.thread
    ensures var g := Materialized(EMPTY, 0, x, env).0;
            Counts(g) && !Counts(Materialized(g, 0, y, env).0) && UnreadSum(g, y) == -1
  {
    var g := Materialized(EMPTY, 0, x, env).0;
    CountsKeptIff(EMPTY, 0, x, env);
    MaterializedWrote(EMPTY, 0, x, env);
    assert y.thread !in g.threads.Keys;
    CountsKeptIff(g, 0, y, env);
  }

  lemma WrittenIs(g: Graph, x: Input)
    ensures var t, p := ThreadBefore(g, x), PeopleOf(g, x);
            Written(g, x) == Graph(g.threads[x.thread := ThreadAfter(t, x, p.ids, UnreadSum(g, x))], p.participants,
                                   p.mentions,
                                   g.messages[x.message := MessageOf(x)], g.runs, g.requests)
  {
  }

  /** The two halves of a call put together. */
  lemma MaterializedIs(g: Graph, w: Graph, used: nat, x: Input, env: Env, h: Graph, after: nat)
    requires w == Written(g, x) && w.runs == g.runs && w.requests == g.requests
    requires var key, asks := KeyOf(g, x, env), AsksModel(x, env, used);
             if key in g.runs then h == w && after == used
             else
               h == w.(runs := g.runs[key := StatusOf(x, env, used)], requests := g.requests + if asks then 1 else 0) &&
               after == used + if asks then 1 else 0
    ensures (h, after) == Materialized(g, used, x, env)
  {
    var key, status := KeyOf(g, x, env), StatusOf(x, env, used);
    if key !in g.runs {
      if AsksModel(x, env, used) {
        assert h == w.(runs := w.runs[key := status], requests := w.requests + 1);
      } else {
        assert h == w.(runs := w.runs[key := status]);
      }
    }
  }

  lemma WrittenKeepsRuns(g: Graph, x: Input)
    ensures Written(g, x).runs == g.runs && Written(g, x).requests == g.requests
  {
  }

  // ----- the function with its shared state

  class Conversations {
    var threads: map<string, Thread>
    var participants: map<(string, string), Participant>
    var mentions: set<string>
    var messages: map<string, Message>
    var runs: map<RunKey, RunStatus>
    var requests: nat
    // the state dictionary of the current batch
    var threadData: map<string, Thread>
    var modelRequests: nat

    function Value(): Graph
      reads this
    {
      Graph(threads, participants, mentions, messages, runs, requests)
    }

    /** A cached copy of a thread is the thread. */
    ghost predicate Coherent()
      reads this
    {
      forall t :: t in threadData ==> t in threads && threadData[t] == threads[t]
    }

    constructor ()
      ensures (Value(), modelRequests) == After([]) && Coherent()
    {
      threads, participants, mentions, messages, runs, requests := map[], map[], {}, map[], map[], 0;
      threadData, modelRequests := map[], 0;
    }

    /** A call with a fresh state dictionary. */
    method StartBatch()
      modifies this
      ensures (Value(), modelRequests) == Step((old(Value()), old(modelRequests)), NewBatch) && Coherent()
    {
      threadData, modelRequests := map[], 0;
    }

    method JoinParticipants(x: Input, ids: seq<string>) returns (ids': seq<string>)
      modifies this`participants, this`mentions
      ensures var list := Merged(x.people, |x.people|);
              People(participants, mentions, ids') ==
                JoinedAll(People(old(participants), old(mentions), ids), x, list, |list|)
    {
      var list := Merged(x.people, |x.people|);
      ids' := ids;
      for k := 0 to |list|
        invariant People(participants, mentions, ids') ==
                  JoinedAll(People(old(participants), old(mentions), ids), x, list, k)
      {
        var address, roles := list[k].0, list[k].1;
        if (x.thread, address) !in participants {
          mentions := mentions + {address};
          participants := participants[(x.thread, address) := Participant(roles, Dedup(Extra(x)))];
        } else {
          var p := participants[(x.thread, address)];
          participants := participants[(x.thread, address) := Participant(p.roles + roles, Dedup(p.refs + Extra(x)))];
        }
        if address !in ids' { ids' := ids' + [address]; }
      }
    }

    method MaterializeConversationMessage(x: Input, env: Env)
      requires Coherent()
      modifies this
      ensures (Value(), modelRequests) == Step((old(Value()), old(modelRequests)), Call(x, env)) && Coherent()
    {
      ghost var g, used := Value(), modelRequests;
      WrittenKeepsRuns(g, x);
      WriteObjects(x);
      ghost var w := Value();
      InterpretBody(x, env);
      MaterializedIs(g, w, used, x, env, Value(), modelRequests);
    }

    method WriteObjects(x: Input)
      requires Coherent()
      modifies this
      ensures Value() == Written(old(Value()), x) && modelRequests == old(modelRequests) && Coherent()
    {
      ghost var g := Value();
      var t, ids := LoadPeople(x);
      var unread := UpsertMessage(x, t.unreadCount);
      assert unread == UnreadSum(g, x);
      var after := ThreadAfter(t, x, ids, unread);
      StoreThread(x.thread, after);
      assert threads == g.threads[x.thread := after];
      WrittenIs(g, x);
    }

    method LoadPeople(x: Input) returns (t: Thread, ids: seq<string>)
      requires Coherent()
      modifies this`threads, this`threadData, this`participants, this`mentions
      ensures t == ThreadBefore(old(Value()), x) && threads == old(threads)[x.thread := t] && Coherent()
      ensures People(participants, mentions, ids) == PeopleOf(old(Value()), x)
    {
      t := LoadThread(x);
      ids := JoinParticipants(x, t.participants);
    }

    method StoreThread(id: string, t: Thread)
      requires Coherent()
      modifies this`threads, this`threadData
      ensures threads == old(threads)[id := t] && Coherent()
    {
      threads := threads[id := t];
      threadData := threadData[id := t];
    }

    method LoadThread(x: Input) returns (t: Thread)
      requires Coherent()
      modifies this`threads, this`threadData
      ensures t == ThreadBefore(old(Value()), x) && threads == old(threads)[x.thread := t] && Coherent()
    {
      if x.thread !in threads { threads := threads[x.thread := NewThread(x)]; }
      if x.thread !in threadData { threadData := threadData[x.thread := threads[x.thread]]; }
      t := threadData[x.thread];
      assert threads == old(threads)[x.thread := t];
    }

    method UpsertMessage(x: Input, before: nat) returns (unread: int)
      modifies this`messages
      ensures messages == old(messages)[x.message := MessageOf(x)]
      ensures unread == before +
              if x.message !in old(messages) then (if x.unread then 1 else 0)
              else if old(messages)[x.message].unread == x.unread then 0 else if x.unread then 1 else -1
    {
      unread := before;
      if x.message !in messages {
        if x.unread { unread := unread + 1; }
      } else if messages[x.message].unread != x.unread {
        unread := if x.unread then unread + 1 else unread - 1;
      }
      messages := messages[x.message := MessageOf(x)];
    }

    /** The interpretation run and its optional model request. */
    method InterpretBody(x: Input, env: Env)
      modifies this`runs, this`requests, this`modelRequests
      ensures var key := RunKey(x.message, x.revision, x.selection, env.profile, env.extractors,
                                if x.reprocess then Again(|RunsOf(old(runs), x.message)|) else Initial);
              if key in old(runs) then runs == old(runs) && requests == old(requests) &&
                  modelRequests == old(modelRequests)
              else
                var asks := AsksModel(x, env, old(modelRequests));
                runs == old(runs)[key := StatusOf(x, env, old(modelRequests))] &&
                requests == old(requests) + (if asks then 1 else 0) &&
                modelRequests == old(modelRequests) + (if asks then 1 else 0)
    {
      var key := RunKey(x.message, x.revision, x.selection, env.profile, env.extractors,
                        if x.reprocess then Again(|RunsOf(runs, x.message)|) else Initial);
      if key in runs { return; }
      var status := match x.hygiene case Ready => Selected case OnHold => Held case _ => Suppressed;
      if status == Selected && env.extractors != [] && modelRequests < Limit(env.policy) {
        requests := requests + 1;
        modelRequests := modelRequests + 1;
      } else if status == Selected {
        status := DeterministicOnly;
      }
      runs := runs[key := status];
    }
  }
}
