/** Chat sessions, their turns and the three in-process caches (packs/chat/behaviors.py).

    Sessions, turns and messages are named by their place in creation order. */
module ChatSessions {
  import opened Prelude

  /** What a chat input can name as its session: any graph object. One that is not a chat session
      has no user, and counts no turns until an input names it. */
  datatype Session = Session(user: string, turnCount: nat)

  datatype Reply = Reply(text: string, candidate: string)

  datatype Turn = Turn(session: nat, number: nat, message: nat, reply: Option<Reply>)

  datatype Entry = Entry(session: nat, turnCount: nat)

  /** Graph objects first, then the registry by user and the map from messages to turns. */
  datatype Chat = Chat(sessions: seq<Session>, turns: seq<Turn>, messages: nat, registry: map<string, Entry>,
                       turnOf: map<nat, nat>)

  const EMPTY := Chat([], [], 0, map[], map[])

  function UserOf(ref: string): string { if ref == "" then "unknown_user" else ref }

  // ----- ingestion

  /** The session a chat input resumes, and the number of its next turn. */
  function Resumed(c: Chat, user: string, given: Option<nat>): Option<(nat, nat)> {
    if given.Some? && given.value < |c.sessions| then Some((given.value, c.sessions[given.value].turnCount + 1))
    else if user in c.registry then Some((c.registry[user].session, c.registry[user].turnCount + 1))
    else None
  }

  function Opened(c: Chat, user: string, given: Option<nat>): Chat {
    if Resumed(c, user, given).Some? then c else c.(sessions := c.sessions + [Session(user, 0)])
  }

  function PlaceOf(c: Chat, user: string, given: Option<nat>): (nat, nat) {
    var r := Resumed(c, user, given);
    if r.Some? then r.value else (|c.sessions|, 1)
  }

  function Ingested(c: Chat, user: string, given: Option<nat>): Chat {
    var o, s, n := Opened(c, user, given), PlaceOf(c, user, given).0, PlaceOf(c, user, given).1;
    if s >= |o.sessions| then c
    else
      Chat(o.sessions[s := o.sessions[s].(turnCount := n)], c.turns + [Turn(s, n, c.messages, None)], c.messages + 1,
           c.registry[user := Entry(s, n)], c.turnOf[c.messages := |c.turns|])
  }

  // ----- delivery

  function FirstTurn(turns: seq<Turn>, message: nat): Option<nat>
    ensures var t := FirstTurn(turns, message);
            t.Some? ==> t.value < |turns| && turns[t.value].message == message &&
                        forall k :: 0 <= k < t.value ==> turns[k].message != message
    ensures FirstTurn(turns, message).None? ==> forall k :: 0 <= k < |turns| ==> turns[k].message != message
  {
    if turns == [] then None
    else
      var before := FirstTurn(turns[..|turns| - 1], message);
      if before.Some? then before
      else if turns[|turns| - 1].message == message then Some(|turns| - 1)
      else None
  }

  function DeliveryTarget(c: Chat, message: nat): Option<nat> {
    if message in c.turnOf then Some(c.turnOf[message]) else FirstTurn(c.turns, message)
  }

  function Delivered(c: Chat, message: nat, reply: Reply): Chat {
    var t := DeliveryTarget(c, message);
    if t.Some? && t.value < |c.turns|
    then c.(turns := c.turns[t.value := c.turns[t.value].(reply := Some(reply))]) else c
  }

  function Cleared(c: Chat): Chat { c.(registry := map[], turnOf := map[]) }

  function WithOther(c: Chat): Chat { c.(sessions := c.sessions + [Session("", 0)]) }

  datatype Event =
    | Input(user: string, session: Option<nat>)
    | Approved(message: nat, reply: Reply)
    | Restart
    | OtherObject

  function Step(c: Chat, e: Event): Chat {
    match e
    case Input(ref, session) => Ingested(c, UserOf(ref), session)
    case Approved(m, reply) => Delivered(c, m, reply)
    case Restart => Cleared(c)
    case OtherObject => WithOther(c)
  }

  function After(run: seq<Event>): Chat {
    if run == [] then EMPTY else Step(After(run[..|run| - 1]), run[|run| - 1])
  }

  // ----- what each event leaves alone

  /** Only a restart forgets; a foreign object is one more name and nothing else; a delivery writes
      the reply of at most one turn. */
  lemma StepSpares(c: Chat, e: Event)
    ensures var d := Step(c, e);
            && |c.sessions| <= |d.sessions| && |c.turns| <= |d.turns|
            && (!e.Restart? ==> c.registry.Keys <= d.registry.Keys && c.turnOf.Keys <= d.turnOf.Keys)
            && (!e.Input? ==> d.messages == c.messages && |d.turns| == |c.turns| && c.sessions <= d.sessions)
            && (e.OtherObject? ==> d.(sessions := c.sessions) == c && |d.sessions| == |c.sessions| + 1)
            && (e.Approved? ==> d.(turns := c.turns) == c)
            && (e.Restart? ==> d.registry == map[] && d.turnOf == map[] && d.turns == c.turns)
    ensures var d := Step(c, e);
            forall i, j :: 0 <= i < j < |c.turns| ==> d.turns[i] == c.turns[i] || d.turns[j] == c.turns[j]
    ensures forall i :: 0 <= i < |c.turns| && Step(c, e).turns[i] != c.turns[i] ==>
                        e.Approved? && Step(c, e).turns[i] == c.turns[i].(reply := Some(e.reply))
  {
  }

  /** An input that resumes no session opens one in the name of its user, or of the unknown user. */
  lemma OpensInName(c: Chat, ref: string, given: Option<nat>)
    ensures var d, user := Step(c, Input(ref, given)), if ref != "" then ref else "unknown_user";
            |d.sessions| > |c.sessions| ==>
              d.sessions[|c.sessions|] == Session(user, 1) && user in d.registry && user !in c.registry
  {
  }

  // ----- numbering

  function TurnsIn(turns: seq<Turn>, s: nat, n: nat): nat
    requires n <= |turns|
  {
    if n == 0 then 0 else TurnsIn(turns, s, n - 1) + if turns[n - 1].session == s then 1 else 0
  }

  /** Turn `i` is numbered next after its session's earlier turns. */
  ghost predicate NumberedTurn(turns: seq<Turn>, i: nat)
    requires i < |turns|
  {
    turns[i].number == TurnsIn(turns, turns[i].session, i) + 1
  }

  ghost predicate CountedSession(sessions: seq<Session>, turns: seq<Turn>, s: nat)
    requires s < |sessions|
  {
    sessions[s].turnCount == TurnsIn(turns, s, |turns|)
  }

  /** Every session's turns are numbered 1, 2, ... without gaps, and its turn_count is their number. */
  ghost predicate Numbered(c: Chat) {
    && (forall i :: 0 <= i < |c.turns| ==> c.turns[i].session < |c.sessions|)
    && (forall i: nat {:trigger NumberedTurn(c.turns, i)} :: i < |c.turns| ==> NumberedTurn(c.turns, i))
    && (forall s :: 0 <= s < |c.sessions| ==> CountedSession(c.sessions, c.turns, s))
  }

  /** Every registry entry names a session and its turn count. */
  ghost predicate RegistryCurrent(c: Chat) {
    forall u :: u in c.registry ==>
      c.registry[u].session < |c.sessions| && c.registry[u].turnCount == c.sessions[c.registry[u].session].turnCount
  }

  /** Messages belong to one turn each, and the cache knows the right one. */
  ghost predicate MessagesMapped(c: Chat) {
    && (forall i :: 0 <= i < |c.turns| ==> c.turns[i].message < c.messages)
    && (forall i, j :: 0 <= i < j < |c.turns| ==> c.turns[i].message != c.turns[j].message)
    && (forall m :: m in c.turnOf ==> c.turnOf[m] < |c.turns| && c.turns[c.turnOf[m]].message == m)
  }

  ghost predicate Consistent(c: Chat) { Numbered(c) && RegistryCurrent(c) && MessagesMapped(c) }

  lemma {:induction false} TurnsInPrefix(turns: seq<Turn>, more: seq<Turn>, s: nat, n: nat)
    requires n <= |turns| && turns <= more
    ensures TurnsIn(turns, s, n) == TurnsIn(more, s, n)
  {
    if n == 0 {
    } else {
      TurnsInPrefix(turns, more, s, n - 1);
    }
  }

  lemma {:induction false} TurnsInNone(turns: seq<Turn>, s: nat, n: nat)
    requires n <= |turns| && forall i :: 0 <= i < |turns| ==> turns[i].session != s
    ensures TurnsIn(turns, s, n) == 0
  {
    if n == 0 {
    } else {
      TurnsInNone(turns, s, n - 1);
    }
  }

  lemma PlaceIsNext(c: Chat, user: string, given: Option<nat>)
    requires Numbered(c) && RegistryCurrent(c)
    ensures var o, s, n := Opened(c, user, given), PlaceOf(c, user, given).0, PlaceOf(c, user, given).1;
            s < |o.sessions| && n == o.sessions[s].turnCount + 1 && n == TurnsIn(c.turns, s, |c.turns|) + 1
  {
    if Resumed(c, user, given).None? {
      TurnsInNone(c.turns, |c.sessions|, |c.turns|);
    } else {
      assert CountedSession(c.sessions, c.turns, PlaceOf(c, user, given).0);
    }
  }

  lemma TurnsInAppend(turns: seq<Turn>, t: Turn, s: nat)
    ensures TurnsIn(turns + [t], s, |turns| + 1) == TurnsIn(turns, s, |turns|) + if t.session == s then 1 else 0
  {
    TurnsInPrefix(turns, turns + [t], s, |turns|);
  }

  lemma AppendNumbered(turns: seq<Turn>, t: Turn, i: nat)
    requires i <= |turns|
    requires if i < |turns| then NumberedTurn(turns, i) else t.number == TurnsIn(turns, t.session, |turns|) + 1
    ensures NumberedTurn(turns + [t], i)
  {
    TurnsInPrefix(turns, turns + [t], (turns + [t])[i].session, i);
  }

  lemma OpenedNumbered(c: Chat, user: string, given: Option<nat>)
    requires Numbered(c)
    ensures Numbered(Opened(c, user, given))
  {
    TurnsInNone(c.turns, |c.sessions|, |c.turns|);
    var o := Opened(c, user, given);
    forall s | 0 <= s < |o.sessions| ensures CountedSession(o.sessions, o.turns, s) {
      if s < |c.sessions| { assert CountedSession(c.sessions, c.turns, s); }
    }
  }

  lemma OtherConsistent(c: Chat)
    requires Consistent(c)
    ensures Consistent(WithOther(c))
  {
    var h := WithOther(c);
    TurnsInNone(c.turns, |c.sessions|, |c.turns|);
    forall s | 0 <= s < |h.sessions| ensures CountedSession(h.sessions, h.turns, s) {
      if s < |c.sessions| { assert CountedSession(c.sessions, c.turns, s); }
    }
  }

  lemma TurnAdded(o: Chat, h: Chat, s: nat, t: Turn)
    requires Numbered(o) && s < |o.sessions| && t.session == s
    requires t.number == o.sessions[s].turnCount + 1 == TurnsIn(o.turns, s, |o.turns|) + 1
    requires h.turns == o.turns + [t] && h.sessions == o.sessions[s := o.sessions[s].(turnCount := t.number)]
    ensures Numbered(h)
  {
    forall i | 0 <= i < |h.turns| ensures h.turns[i].session < |h.sessions| && NumberedTurn(h.turns, i) {
      AppendNumbered(o.turns, t, i);
    }
    forall k | 0 <= k < |h.sessions| ensures CountedSession(h.sessions, h.turns, k) {
      assert CountedSession(o.sessions, o.turns, k);
      TurnsInAppend(o.turns, t, k);
    }
  }

  /** Turns stay numbered without gaps as long as the registry is current. */
  lemma IngestedNumbered(c: Chat, user: string, given: Option<nat>)
    requires Numbered(c) && RegistryCurrent(c)
    ensures Numbered(Ingested(c, user, given))
  {
    PlaceIsNext(c, user, given);
    OpenedNumbered(c, user, given);
    var p := PlaceOf(c, user, given);
    TurnAdded(Opened(c, user, given), Ingested(c, user, given), p.0, Turn(p.0, p.1, c.messages, None));
  }

  /** Another user's registry entry names the session this input goes to. */
  predicate SharedWith(c: Chat, user: string, given: Option<nat>, other: string) {
    other != user && other in c.registry && c.registry[other].session == PlaceOf(c, user, given).0
  }

  /** An input keeps the registry current if and only if no other user's entry names its session. */
  lemma RegistryKeptIff(c: Chat, user: string, given: Option<nat>)
    requires Numbered(c) && RegistryCurrent(c)
    ensures RegistryCurrent(Ingested(c, user, given)) <==> forall other :: !SharedWith(c, user, given, other)
  {
    var h, s := Ingested(c, user, given), PlaceOf(c, user, given).0;
    PlaceIsNext(c, user, given);
    if other :| SharedWith(c, user, given, other) {
      assert h.registry[other] == c.registry[other] && h.sessions[s].turnCount == c.sessions[s].turnCount + 1;
    } else {
      forall u | u in h.registry
        ensures h.registry[u].session < |h.sessions| &&
                h.registry[u].turnCount == h.sessions[h.registry[u].session].turnCount
      {
        if u != user { assert !SharedWith(c, user, given, u); }
      }
    }
  }

  lemma IngestedMapped(c: Chat, user: string, given: Option<nat>)
    requires MessagesMapped(c)
    ensures MessagesMapped(Ingested(c, user, given))
  {
  }

  lemma {:induction false} TurnsInReplied(turns: seq<Turn>, others: seq<Turn>, s: nat, n: nat)
    requires n <= |turns| == |others| && forall i :: 0 <= i < n ==> turns[i].session == others[i].session
    ensures TurnsIn(turns, s, n) == TurnsIn(others, s, n)
  {
    if n == 0 {
    } else {
      TurnsInReplied(turns, others, s, n - 1);
    }
  }

  lemma RepliedNumbered(c: Chat, h: Chat)
    requires Numbered(c) && h.sessions == c.sessions && |h.turns| == |c.turns|
    requires forall i :: 0 <= i < |c.turns| ==>
               h.turns[i].session == c.turns[i].session && h.turns[i].number == c.turns[i].number
    ensures Numbered(h)
  {
    forall i | 0 <= i < |h.turns| ensures h.turns[i].session < |h.sessions| && NumberedTurn(h.turns, i) {
      assert NumberedTurn(c.turns, i);
      TurnsInReplied(c.turns, h.turns, c.turns[i].session, i);
    }
    forall s | 0 <= s < |h.sessions| ensures CountedSession(h.sessions, h.turns, s) {
      assert CountedSession(c.sessions, c.turns, s);
      TurnsInReplied(c.turns, h.turns, s, |h.turns|);
    }
  }

  lemma DeliveredConsistent(c: Chat, message: nat, reply: Reply)
    requires Consistent(c)
    ensures Consistent(Delivered(c, message, reply))
  {
    RepliedNumbered(c, Delivered(c, message, reply));
  }

  // ----- runs in which each session has one user

  /** Every registry entry names a session its user opened. */
  ghost predicate OwnSessions(c: Chat) {
    forall u :: u in c.registry ==> c.registry[u].session < |c.sessions| && c.sessions[c.registry[u].session].user == u
  }

  /** An input that names a session names one its user opened. */
  predicate NamesOwn(c: Chat, e: Event) {
    e.Input? && e.session.Some? && e.session.value < |c.sessions| ==> c.sessions[e.session.value].user == UserOf(e.user)
  }

  ghost predicate OneUserEach(run: seq<Event>) {
    forall n :: 0 <= n < |run| ==> NamesOwn(After(run[..n]), run[n])
  }

  lemma OneUserInit(run: seq<Event>)
    requires run != [] && OneUserEach(run)
    ensures OneUserEach(run[..|run| - 1]) && NamesOwn(After(run[..|run| - 1]), run[|run| - 1])
  {
    var init := run[..|run| - 1];
    forall n | 0 <= n < |init| ensures NamesOwn(After(init[..n]), init[n]) {
      assert init[..n] == run[..n] && init[n] == run[n];
    }
  }

  lemma InputConsistent(c: Chat, user: string, given: Option<nat>)
    requires Consistent(c) && OwnSessions(c)
    requires given.Some? && given.value < |c.sessions| ==> c.sessions[given.value].user == user
    ensures Consistent(Ingested(c, user, given)) && OwnSessions(Ingested(c, user, given))
  {
    IngestedNumbered(c, user, given);
    IngestedMapped(c, user, given);
    PlaceIsNext(c, user, given);
    forall other ensures !SharedWith(c, user, given, other) {
    }
    RegistryKeptIff(c, user, given);
  }

  /** Over every such run, with restarts anywhere: turns are numbered without gaps, turn counts and
      registry entries agree with them, and the message cache is right. */
  lemma {:induction false} RunConsistent(run: seq<Event>)
    requires OneUserEach(run)
    ensures Consistent(After(run)) && OwnSessions(After(run))
  {
    if run == [] {
    } else {
      var c := After(run[..|run| - 1]);
      OneUserInit(run);
      RunConsistent(run[..|run| - 1]);
      match run[|run| - 1]
      case Input(ref, session) => InputConsistent(c, UserOf(ref), session);
      case Approved(m, reply) => DeliveredConsistent(c, m, reply);
      case Restart =>
      case OtherObject => OtherConsistent(c);
    }
  }

  /** Two users in one session: the first user's next input repeats a turn number. */
  lemma SharedSessionExample()
    ensures var run := [Input("ann", None), Input("bob", Some(0)), Input("ann", None)];
            var c := After(run);
            |c.turns| == 3 && c.turns[1].session == c.turns[2].session == 0 &&
                c.turns[1].number == c.turns[2].number == 2
  {
    var r1, r2, r3 := [Input("ann", None)], [Input("ann", None), Input("bob", Some(0))],
        [Input("ann", None), Input("bob", Some(0)), Input("ann", None)];
    assert r1[..0] == [] && r2[..1] == r1 && r3[..2] == r2;
    assert After(r1[..0]) == EMPTY;
    var c1 := After(r1);
    assert "ann" != "bob" by { assert "ann"[0] != "bob"[0]; }
    assert c1.sessions == [Session("ann", 1)] && c1.turns == [Turn(0, 1, 0, None)] &&
           c1.registry == map["ann" := Entry(0, 1)];
    var c2 := After(r2);
    assert c2.registry["ann"] == Entry(0, 1) && c2.turns == [Turn(0, 1, 0, None), Turn(0, 2, 1, None)];
    assert |c2.sessions| == 1;
    var c3 := After(r3);
    assert c3.turns == c2.turns + [Turn(0, 2, 2, None)];
  }

  /** A restart sends an input elsewhere if and only if the input names no object and the registry
      held its user: the user's session is not resumed, a new one is opened. */
  lemma RestartMovesInputIff(c: Chat, user: string, given: Option<nat>)
    requires Numbered(c) && RegistryCurrent(c)
    ensures PlaceOf(Cleared(c), user, given) != PlaceOf(c, user, given) <==>
            !(given.Some? && given.value < |c.sessions|) && user in c.registry
    ensures PlaceOf(Cleared(c), user, given) == PlaceOf(c, user, given) ||
            PlaceOf(Cleared(c), user, given) == (|c.sessions|, 1)
  {
    PlaceIsNext(c, user, given);
  }

  /** Delivery goes to the one turn of the message, whether or not the cache holds it. */
  lemma DeliveryIgnoresCache(c: Chat, message: nat)
    requires MessagesMapped(c)
    ensures DeliveryTarget(c, message) == FirstTurn(c.turns, message) == DeliveryTarget(Cleared(c), message)
  {
  }

  // ----- conversation memory

  /** Stable insertion by turn number. */
  function Insert(sorted: seq<Turn>, t: Turn): seq<Turn> {
    Inserted((a: Turn, b: Turn) => a.number < b.number, sorted, t)
  }

  /** The session's turns other than the message's own, sorted by number. */
  function Prior(turns: seq<Turn>, s: nat, message: nat, n: nat): seq<Turn>
    requires n <= |turns|
  {
    if n == 0 then []
    else
      var before, t := Prior(turns, s, message, n - 1), turns[n - 1];
      if t.session == s && t.message != message then Insert(before, t) else before
  }

  // ----- the order of the context, whatever the numbers are

  ghost predicate Rising(ts: seq<Turn>) { forall i, j :: 0 <= i < j < |ts| ==> ts[i].number <= ts[j].number }

  function WithNumber(ts: seq<Turn>, number: nat): seq<Turn> {
    if ts == [] then []
    else
      WithNumber(ts[..|ts| - 1], number) + if ts[|ts| - 1].number == number then [ts[|ts| - 1]] else []
  }

  /** The turns of the context in the order they were opened. */
  function OpenedTurns(turns: seq<Turn>, s: nat, message: nat, n: nat): seq<Turn>
    requires n <= |turns|
  {
    if n == 0 then []
    else
      OpenedTurns(turns, s, message, n - 1) +
      if turns[n - 1].session == s && turns[n - 1].message != message then [turns[n - 1]] else []
  }

  lemma WithNumberPush(ts: seq<Turn>, t: Turn, number: nat)
    ensures WithNumber(ts + [t], number) == WithNumber(ts, number) + if t.number == number then [t] else []
  {
    assert (ts + [t])[..|ts|] == ts;
  }

  lemma {:induction false} InsertKeeps(sorted: seq<Turn>, t: Turn)
    ensures multiset(Insert(sorted, t)) == multiset(sorted) + multiset{t}
    decreases |sorted|
  {
    if sorted == [] || t.number >= sorted[|sorted| - 1].number {
    } else {
      assert sorted == sorted[..|sorted| - 1] + [sorted[|sorted| - 1]];
      InsertKeeps(sorted[..|sorted| - 1], t);
    }
  }

  lemma RisingPush(ts: seq<Turn>, t: Turn)
    requires Rising(ts) && forall u :: u in ts ==> u.number <= t.number
    ensures Rising(ts + [t])
  {
    forall i, j | 0 <= i < j < |ts| + 1 ensures (ts + [t])[i].number <= (ts + [t])[j].number {
      if j == |ts| { assert ts[i] in ts; }
    }
  }

  lemma {:induction false} InsertRises(sorted: seq<Turn>, t: Turn)
    requires Rising(sorted)
    ensures Rising(Insert(sorted, t))
    decreases |sorted|
  {
    if sorted == [] || t.number >= sorted[|sorted| - 1].number {
      RisingPush(sorted, t);
    } else {
      var init, last := sorted[..|sorted| - 1], sorted[|sorted| - 1];
      InsertRises(init, t);
      InsertKeeps(init, t);
      forall u | u in Insert(init, t) ensures u.number <= last.number {
        assert u in multiset(init) + multiset{t};
      }
      RisingPush(Insert(init, t), last);
    }
  }

  lemma {:induction false} InsertStable(sorted: seq<Turn>, t: Turn, number: nat)
    ensures WithNumber(Insert(sorted, t), number) ==
            WithNumber(sorted, number) + if t.number == number then [t] else []
    decreases |sorted|
  {
    if sorted == [] || t.number >= sorted[|sorted| - 1].number {
      WithNumberPush(sorted, t, number);
    } else {
      var init, last := sorted[..|sorted| - 1], sorted[|sorted| - 1];
      InsertStable(init, t, number);
      WithNumberPush(Insert(init, t), last, number);
    }
  }

  /** The context is the stable sort by turn number: rising, and turns with one number, which two
      users of a session can bring about, stay in the order they were opened. */
  lemma {:induction false} PriorIsStable(turns: seq<Turn>, s: nat, message: nat, n: nat, number: nat)
    requires n <= |turns|
    ensures var prior, others := Prior(turns, s, message, n), OpenedTurns(turns, s, message, n);
            && Rising(prior) && multiset(prior) == multiset(others)
            && WithNumber(prior, number) == WithNumber(others, number)
    decreases n
  {
    if n == 0 {
    } else {
      PriorIsStable(turns, s, message, n - 1, number);
      var before, others, t := Prior(turns, s, message, n - 1), OpenedTurns(turns, s, message, n - 1), turns[n - 1];
      if t.session == s && t.message != message {
        InsertRises(before, t);
        InsertKeeps(before, t);
        InsertStable(before, t, number);
        WithNumberPush(others, t, number);
      } else {
        assert others + [] == others;
      }
    }
  }

  /** The latest `limit` of them; a limit that is not positive means all. */
  function Window(prior: seq<Turn>, limit: int): seq<Turn> {
    if limit > 0 && limit < |prior| then prior[|prior| - limit..] else prior
  }

  /** The numbers are 1, 2, ... with the own number skipped. */
  ghost predicate SkipsOwn(prior: seq<Turn>, own: nat) {
    forall k :: 0 <= k < |prior| ==> prior[k].number == k + 1 + if k + 1 >= own then 1 else 0
  }

  /** `prior` is what the first `n` turns hold besides the own turn, numbered without gaps. */
  ghost predicate Collected(turns: seq<Turn>, own: nat, n: nat, prior: seq<Turn>)
    requires own < |turns| && n <= |turns|
  {
    && SkipsOwn(prior, turns[own].number)
    && |prior| == TurnsIn(turns, turns[own].session, n) - (if own < n then 1 else 0)
    && forall p :: p in prior ==> p in turns && p.session == turns[own].session && p != turns[own]
  }

  lemma InsertLast(prior: seq<Turn>, own: nat, t: Turn)
    requires SkipsOwn(prior, own) && t.number == |prior| + 1 + if |prior| + 1 >= own then 1 else 0
    ensures Insert(prior, t) == prior + [t] && SkipsOwn(prior + [t], own)
  {
  }

  /** Turn `n` of the own session is numbered next to what is collected before it. */
  lemma NextNumber(c: Chat, own: nat, n: nat)
    requires Numbered(c) && own < |c.turns| && n < |c.turns| && n != own && c.turns[n].session == c.turns[own].session
    ensures var t, u := c.turns[own], c.turns[n];
            var size := TurnsIn(c.turns, t.session, n) - if own < n then 1 else 0;
            size >= 0 && u.number == size + 1 + if size + 1 >= t.number then 1 else 0
  {
    var t := c.turns[own];
    assert NumberedTurn(c.turns, own) && NumberedTurn(c.turns, n);
    if own < n {
      TurnsInMonotone(c.turns, t.session, own + 1, n);
    } else {
      TurnsInMonotone(c.turns, t.session, n + 1, own);
    }
  }

  lemma CollectOne(c: Chat, own: nat, n: nat, before: seq<Turn>) returns (prior: seq<Turn>)
    requires Numbered(c) && MessagesMapped(c) && own < |c.turns| && n < |c.turns| && Collected(c.turns, own, n, before)
    ensures var t, u := c.turns[own], c.turns[n];
            prior == if u.session == t.session && u.message != t.message then Insert(before, u) else before
    ensures Collected(c.turns, own, n + 1, prior)
  {
    var t, u := c.turns[own], c.turns[n];
    prior := before;
    if u.session == t.session && n != own {
      NextNumber(c, own, n);
      InsertLast(before, t.number, u);
      prior := before + [u];
    }
  }

  lemma {:induction false} CollectAll(c: Chat, own: nat, n: nat) returns (prior: seq<Turn>)
    requires Numbered(c) && MessagesMapped(c) && own < |c.turns| && n <= |c.turns|
    ensures prior == Prior(c.turns, c.turns[own].session, c.turns[own].message, n)
    ensures Collected(c.turns, own, n, prior)
  {
    if n == 0 {
      prior := [];
    } else {
      var before := CollectAll(c, own, n - 1);
      prior := CollectOne(c, own, n - 1, before);
    }
  }

  lemma {:induction false} TurnsInMonotone(turns: seq<Turn>, s: nat, m: nat, n: nat)
    requires m <= n <= |turns|
    ensures TurnsIn(turns, s, m) <= TurnsIn(turns, s, n)
  {
    if m == n {
    } else {
      TurnsInMonotone(turns, s, m, n - 1);
    }
  }

  /** All of a session's other turns, in order: 1, 2, ... up to its turn count, without the own. */
  lemma PriorIsOthers(c: Chat, own: nat) returns (prior: seq<Turn>)
    requires Numbered(c) && MessagesMapped(c) && own < |c.turns|
    ensures var t := c.turns[own];
            prior == Prior(c.turns, t.session, t.message, |c.turns|) && SkipsOwn(prior, t.number) &&
            t.session < |c.sessions| && |prior| == c.sessions[t.session].turnCount - 1 &&
                1 <= t.number <= |prior| + 1 &&
            forall p :: p in prior ==> p in c.turns && p.session == t.session && p != t
  {
    var t := c.turns[own];
    prior := CollectAll(c, own, |c.turns|);
    assert CountedSession(c.sessions, c.turns, t.session) && NumberedTurn(c.turns, own);
    TurnsInMonotone(c.turns, t.session, own + 1, |c.turns|);
  }

  /** The context of a message: when its turn is the session's latest, the window is exactly the
      latest `limit` earlier turns, in order of their numbers. */
  lemma ContextIsLatestTurns(c: Chat, own: nat, limit: int)
    requires Numbered(c) && MessagesMapped(c) && own < |c.turns| && c.turns[own].session < |c.sessions|
    requires c.turns[own].number == c.sessions[c.turns[own].session].turnCount
    ensures var t := c.turns[own];
            var window := Window(Prior(c.turns, t.session, t.message, |c.turns|), limit);
            var m := if limit > 0 && limit < t.number - 1 then limit else t.number - 1;
            |window| == m && forall k :: 0 <= k < m ==>
              window[k].number == t.number - m + k && window[k].session == t.session && window[k] in c.turns
  {
    var prior := PriorIsOthers(c, own);
    assert forall k :: 0 <= k < |prior| ==> prior[k] in prior;
  }

  /** The window holds earlier turns only if and only if no later turn of the session has been
      ingested before the context is assembled. */
  lemma ContextLooksBackIff(c: Chat, own: nat, limit: int)
    requires Numbered(c) && MessagesMapped(c) && own < |c.turns| && c.turns[own].session < |c.sessions|
    ensures var t := c.turns[own];
            var window := Window(Prior(c.turns, t.session, t.message, |c.turns|), limit);
            (forall k :: 0 <= k < |window| ==> window[k].number < t.number) <==>
                t.number == c.sessions[t.session].turnCount
  {
    var prior := PriorIsOthers(c, own);
    WindowLooksBackIff(prior, limit, c.turns[own].number);
  }

  lemma WindowLooksBackIff(prior: seq<Turn>, limit: int, own: nat)
    requires SkipsOwn(prior, own) && 1 <= own <= |prior| + 1
    ensures (forall k :: 0 <= k < |Window(prior, limit)| ==> Window(prior, limit)[k].number < own) <==>
              own == |prior| + 1
  {
    var window := Window(prior, limit);
    if own <= |prior| {
      assert window[|window| - 1] == prior[|prior| - 1];
    } else {
      assert forall k :: 0 <= k < |window| ==> window[k] == prior[|prior| - |window| + k];
    }
  }

  lemma AfterAppend(run: seq<Event>, e: Event)
    ensures After(run + [e]) == Step(After(run), e)
  {
    assert (run + [e])[..|run|] == run;
  }

  /** Two inputs are ingested before the first one's context is assembled: the context of the first
      message is the second message's turn. */
  lemma LateContextExample()
    ensures var c := After([Input("ann", None), Input("ann", None)]);
            c.turns == [Turn(0, 1, 0, None), Turn(0, 2, 1, None)] &&
            forall limit: int :: Window(Prior(c.turns, 0, 0, 2), limit) == [Turn(0, 2, 1, None)]
  {
    var e := Input("ann", None);
    AfterAppend([], e);
    AfterAppend([e], e);
    assert [] + [e] == [e] && [e] + [e] == [e, e];
    var c := After([e]);
    assert c.turns == [Turn(0, 1, 0, None)] && c.sessions == [Session("ann", 1)] && c.registry["ann"] == Entry(0, 1);
    var t := After([e, e]).turns;
    assert t == [Turn(0, 1, 0, None), Turn(0, 2, 1, None)];
    assert Prior(t, 0, 0, 0) == [] && Prior(t, 0, 0, 1) == [] && Prior(t, 0, 0, 2) == [t[1]];
  }

  // ----- the behaviors

  class ChatPack {
    var sessions: seq<Session>
    var turns: seq<Turn>
    var messages: nat
    var registry: map<string, Entry>
    var turnOf: map<nat, nat>

    function Value(): Chat
      reads this
    {
      Chat(sessions, turns, messages, registry, turnOf)
    }

    constructor ()
      ensures Value() == After([])
    {
      sessions, turns, messages, registry, turnOf := [], [], 0, map[], map[];
    }

    method ClearSessionRegistry()
      modifies this`registry, this`turnOf
      ensures Value() == Cleared(old(Value()))
    {
      registry, turnOf := map[], map[];
    }

    method ChatIngester(ref: string, given: Option<nat>)
      requires forall u :: u in registry ==> registry[u].session < |sessions|
      modifies this
      ensures Value() == Step(old(Value()), Input(ref, given))
    {
      var user := if ref != "" then ref else "unknown_user";
      var session: Option<nat>, number: nat := None, 1;
      if given.Some? && given.value < |sessions| {
        session, number := given, sessions[given.value].turnCount + 1;
      }
      if session.None? && user in registry {
        session, number := Some(registry[user].session), registry[user].turnCount + 1;
      }
      if session.None? {
        session, number := Some(|sessions|), 1;
        sessions := sessions + [Session(user, 0)];
      }
      var s, message, turn := session.value, messages, |turns|;
      messages := messages + 1;
      turns := turns + [Turn(s, number, message, None)];
      sessions := sessions[s := sessions[s].(turnCount := number)];
      turnOf := turnOf[message := turn];
      registry := registry[user := Entry(s, number)];
    }

    method ChatContextAssembler(session: nat, message: nat, limit: int) returns (context: seq<Turn>)
      ensures context == Window(Prior(turns, session, message, |turns|), limit)
    {
      context := [];
      for i := 0 to |turns|
        invariant context == Prior(turns, session, message, i)
      {
        if turns[i].session == session && turns[i].message != message { context := Insert(context, turns[i]); }
      }
      if limit > 0 && limit < |context| { context := context[|context| - limit..]; }
    }

    method ChatResponder(message: nat, reply: Reply)
      modifies this`turns
      ensures Value() == Delivered(old(Value()), message, reply)
    {
      var turn: Option<nat> := None;
      if message in turnOf { turn := Some(turnOf[message]); }
      if turn.None? {
        for i := 0 to |turns|
          invariant turn == FirstTurn(turns[..i], message)
        {
          assert turns[..i + 1][..i] == turns[..i];
          if turn.None? && turns[i].message == message { turn := Some(i); }
        }
        assert turns[..|turns|] == turns;
      }
      if turn.Some? && turn.value < |turns| {
        turns := turns[turn.value := turns[turn.value].(reply := Some(reply))];
      }
    }
  }
}
