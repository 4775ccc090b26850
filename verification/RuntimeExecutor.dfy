/** The single-thread runtime executor (packs/demo_server.py:53-84): many request threads, one queue,
    one worker thread that owns the graph. */
module RuntimeExecutor {
  import opened Prelude

  /** What the graph holds, and a closure together with its captured values, written out. */
  type Graph = string
  type Closure = string

  datatype Outcome = Returned(value: string) | Raised(error: string)

  /** The next thing a closure does: end, touch the graph, or call `run` with another closure. */
  datatype Move =
    | End(outcome: Outcome)
    | Touch(write: Graph -> Graph, next: Graph -> Closure)
    | Run(fn: Closure, andThen: Outcome -> Closure)

  /** The code of all closures; `rank` falls with every move, so that every closure ends. */
  datatype Code = Code(move: Closure -> Move, rank: Closure -> ORDINAL)

  ghost predicate Ends(code: Code) {
    forall c: Closure {:trigger code.move(c)} ::
      match code.move(c)
      case End(_) => true
      case Touch(_, next) => forall g :: code.rank(next(g)) < code.rank(c)
      case Run(fn, andThen) => code.rank(fn) < code.rank(c) && forall o :: code.rank(andThen(o)) < code.rank(c)
  }

  // ----- the reference: closures called directly, one after another

  /** A direct call: what it returns or raises, the graph it leaves, and the worker steps it takes. */
  ghost function Meaning(code: Code, c: Closure, g: Graph): (Outcome, Graph, nat)
    requires Ends(code)
    decreases code.rank(c)
  {
    match code.move(c)
    case End(o) => (o, g, 1)
    case Touch(write, next) => var r := Meaning(code, next(g), write(g)); (r.0, r.1, r.2 + 1)
    case Run(fn, andThen) =>
      var inner := Meaning(code, fn, g);
      var rest := Meaning(code, andThen(inner.0), inner.1);
      (rest.0, rest.1, inner.2 + rest.2 + 1)
  }

  /** The graph after the first `n` closures ran one after another, and the steps that took, counting
      one for taking each from the queue. */
  ghost function Serial(code: Code, jobs: seq<Closure>, g: Graph, n: nat): (Graph, nat)
    requires Ends(code) && n <= |jobs|
  {
    if n == 0 then (g, 0)
    else
      var before := Serial(code, jobs, g, n - 1);
      var r := Meaning(code, jobs[n - 1], before.0);
      (r.1, before.1 + r.2 + 1)
  }

  /** What the closure submitted as number `t` gives in the serial run. */
  ghost function SerialOutcome(code: Code, jobs: seq<Closure>, g: Graph, t: nat): Outcome
    requires Ends(code) && t < |jobs|
  {
    Meaning(code, jobs[t], Serial(code, jobs, g, t).0).0
  }

  // ----- the executor

  datatype Item = Item(fn: Closure, future: nat)

  /** Inside a closure called from another one, `callers` are waiting for it on the worker's stack. */
  datatype Worker = Idle | Busy(future: nat, current: Closure, callers: seq<Outcome -> Closure>)

  datatype Receipt = Receipt(thread: nat, future: nat, outcome: Outcome)

  /** `waiting` holds the request threads blocked in `run`, with the future they wait for. */
  datatype Executor = Executor(queue: seq<Item>, futures: seq<Option<Outcome>>, worker: Worker, graph: Graph,
                               waiting: map<nat, nat>, received: seq<Receipt>)

  datatype Event = Submit(thread: nat, fn: Closure) | Tick | Receive(thread: nat)

  function Boot(g: Graph): Executor { Executor([], [], Idle, g, map[], []) }

  /** One step of the worker thread. */
  function Ticked(code: Code, s: Executor): Executor {
    match s.worker
    case Idle =>
      if s.queue == [] then s else s.(queue := s.queue[1..], worker := Busy(s.queue[0].future, s.queue[0].fn, []))
    case Busy(f, c, callers) =>
      match code.move(c)
      case Touch(write, next) => s.(graph := write(s.graph), worker := Busy(f, next(s.graph), callers))
      case Run(fn, andThen) => s.(worker := Busy(f, fn, callers + [andThen]))
      case End(o) =>
        if callers != [] then s.(worker := Busy(f, callers[|callers| - 1](o), callers[..|callers| - 1]))
        else if f < |s.futures| then s.(futures := s.futures[f := Some(o)], worker := Idle)
        else s
  }

  predicate CanSubmit(s: Executor, thread: nat) { thread !in s.waiting }

  predicate CanReceive(s: Executor, thread: nat) {
    thread in s.waiting && s.waiting[thread] < |s.futures| && s.futures[s.waiting[thread]].Some?
  }

  /** A blocked thread submits nothing, and `run` returns only once its future is set. */
  function Step(code: Code, s: Executor, e: Event): Executor {
    match e
    case Submit(thread, fn) =>
      if !CanSubmit(s, thread) then s
      else s.(queue := s.queue + [Item(fn, |s.futures|)], futures := s.futures + [None],
              waiting := s.waiting[thread := |s.futures|])
    case Tick => Ticked(code, s)
    case Receive(thread) =>
      if !CanReceive(s, thread) then s
      else s.(waiting := s.waiting - {thread},
              received := s.received + [Receipt(thread, s.waiting[thread], s.futures[s.waiting[thread]].value)])
  }

  function After(code: Code, g: Graph, run: seq<Event>): Executor {
    if run == [] then Boot(g) else Step(code, After(code, g, run[..|run| - 1]), run[|run| - 1])
  }

  /** The closures and threads submitted once an event is added. */
  function WithEvent(s: Executor, jobs: (seq<Closure>, seq<nat>), e: Event): (seq<Closure>, seq<nat>) {
    if e.Submit? && CanSubmit(s, e.thread) then (jobs.0 + [e.fn], jobs.1 + [e.thread]) else jobs
  }

  /** The closures submitted in a run, with the threads that submitted them. */
  function Submitted(code: Code, g: Graph, run: seq<Event>): (seq<Closure>, seq<nat>) {
    if run == [] then ([], [])
    else WithEvent(After(code, g, run[..|run| - 1]), Submitted(code, g, run[..|run| - 1]), run[|run| - 1])
  }

  /** The worker steps of a run in which there was something to do. */
  function Worked(code: Code, g: Graph, run: seq<Event>): nat {
    if run == [] then 0
    else
      var s, e := After(code, g, run[..|run| - 1]), run[|run| - 1];
      Worked(code, g, run[..|run| - 1]) + if e.Tick? && HasWork(s) then 1 else 0
  }

  predicate HasWork(s: Executor) { s.worker.Busy? || s.queue != [] }

  /** A call is taken up unless its thread waits for an earlier one: it is queued last, under a future
      of its own that is not set, and the thread waits for that future. */
  lemma SubmitTaken(code: Code, s: Executor, thread: nat, fn: Closure)
    ensures var t, n := Step(code, s, Submit(thread, fn)), |s.futures|;
            if thread in s.waiting then t == s
            else
              t == s.(queue := s.queue + [Item(fn, n)], futures := s.futures + [None],
                      waiting := s.waiting[thread := n])
  {
  }

  // ----- what every run keeps

  /** How the closure in progress ends: the current one first, then its callers outwards. */
  ghost function Rest(code: Code, c: Closure, callers: seq<Outcome -> Closure>, g: Graph): (Outcome, Graph, nat)
    requires Ends(code)
    decreases |callers|
  {
    var r := Meaning(code, c, g);
    if callers == [] then r
    else
      var outer := Rest(code, callers[|callers| - 1](r.0), callers[..|callers| - 1], r.1);
      (outer.0, outer.1, r.2 + outer.2)
  }

  function Finished(s: Executor, jobs: seq<Closure>): int { |jobs| - |s.queue| - if s.worker.Busy? then 1 else 0 }

  ghost predicate QueueInOrder(s: Executor, jobs: seq<Closure>) {
    && |s.futures| == |jobs| && |s.queue| <= |jobs| && Finished(s, jobs) >= 0
    && forall i :: 0 <= i < |s.queue| ==> s.queue[i] == Item(jobs[|jobs| - |s.queue| + i], |jobs| - |s.queue| + i)
  }

  ghost predicate FutureFits(code: Code, s: Executor, jobs: seq<Closure>, g: Graph, t: nat)
    requires Ends(code) && t < |jobs| == |s.futures|
  {
    s.futures[t] == if t < Finished(s, jobs) then Some(SerialOutcome(code, jobs, g, t)) else None
  }

  ghost predicate FuturesFit(code: Code, s: Executor, jobs: seq<Closure>, g: Graph)
    requires Ends(code) && |jobs| == |s.futures|
  {
    forall t: nat {:trigger FutureFits(code, s, jobs, g, t)} :: t < |jobs| ==> FutureFits(code, s, jobs, g, t)
  }

  /** The graph is the one of the serial run, with the closure in progress part way through. */
  ghost predicate WorkerFits(code: Code, s: Executor, jobs: seq<Closure>, g: Graph, worked: nat)
    requires Ends(code)
  {
    var d := Finished(s, jobs);
    && 0 <= d <= |jobs|
    && match s.worker
       case Idle => Serial(code, jobs, g, d) == (s.graph, worked)
       case Busy(f, c, callers) =>
         var rest := Rest(code, c, callers, s.graph);
         && f == d < |jobs| && Serial(code, jobs, g, d).1 < worked
         && Meaning(code, jobs[d], Serial(code, jobs, g, d).0).0 == rest.0
         && Serial(code, jobs, g, d + 1) == (rest.1, worked + rest.2)
  }

  /** Every request thread waits for its own closure and has received the outcomes of its own ones. */
  ghost predicate ThreadsFit(code: Code, s: Executor, jobs: seq<Closure>, threads: seq<nat>, g: Graph)
    requires Ends(code)
  {
    && |threads| == |jobs|
    && (forall t :: t in s.waiting ==> s.waiting[t] < |jobs| && threads[s.waiting[t]] == t)
    && (forall i :: 0 <= i < |s.received| ==>
          var r := s.received[i];
          r.future < |jobs| && threads[r.future] == r.thread && r.outcome == SerialOutcome(code, jobs, g, r.future))
    && (forall i, t :: 0 <= i < |s.received| && t in s.waiting ==> s.received[i].future != s.waiting[t])
    && (forall i, j :: 0 <= i < j < |s.received| ==> s.received[i].future != s.received[j].future)
  }

  lemma {:induction false} SerialPrefix(code: Code, jobs: seq<Closure>, more: seq<Closure>, g: Graph, n: nat)
    requires Ends(code) && n <= |jobs| && jobs <= more
    ensures Serial(code, jobs, g, n) == Serial(code, more, g, n)
  {
    if n == 0 {
    } else {
      SerialPrefix(code, jobs, more, g, n - 1);
    }
  }

  lemma OutcomePrefix(code: Code, jobs: seq<Closure>, c: Closure, g: Graph, t: nat)
    requires Ends(code) && t < |jobs|
    ensures SerialOutcome(code, jobs, g, t) == SerialOutcome(code, jobs + [c], g, t)
  {
    SerialPrefix(code, jobs, jobs + [c], g, t);
  }

  // Submissions

  lemma SubmitQueues(code: Code, s: Executor, jobs: seq<Closure>, thread: nat, fn: Closure)
    requires QueueInOrder(s, jobs) && CanSubmit(s, thread)
    ensures QueueInOrder(Step(code, s, Submit(thread, fn)), jobs + [fn])
  {
  }

  lemma SubmitFutures(code: Code, s: Executor, jobs: seq<Closure>, g: Graph, thread: nat, fn: Closure)
    requires Ends(code) && QueueInOrder(s, jobs) && FuturesFit(code, s, jobs, g) && CanSubmit(s, thread)
    ensures FuturesFit(code, Step(code, s, Submit(thread, fn)), jobs + [fn], g)
  {
    var h := Step(code, s, Submit(thread, fn));
    forall t: nat | t < |jobs| + 1 ensures FutureFits(code, h, jobs + [fn], g, t) {
      if t < |jobs| {
        assert FutureFits(code, s, jobs, g, t);
        OutcomePrefix(code, jobs, fn, g, t);
      }
    }
  }

  lemma SubmitWorker(code: Code, s: Executor, jobs: seq<Closure>, g: Graph, worked: nat, thread: nat, fn: Closure)
    requires Ends(code) && WorkerFits(code, s, jobs, g, worked) && CanSubmit(s, thread)
    ensures WorkerFits(code, Step(code, s, Submit(thread, fn)), jobs + [fn], g, worked)
  {
    var d := Finished(s, jobs);
    SerialPrefix(code, jobs, jobs + [fn], g, d);
    if s.worker.Busy? { SerialPrefix(code, jobs, jobs + [fn], g, d + 1); }
  }

  lemma SubmitThreads(code: Code, s: Executor, jobs: seq<Closure>, threads: seq<nat>, g: Graph, thread: nat,
                      fn: Closure)
    requires Ends(code) && |s.futures| == |jobs| && ThreadsFit(code, s, jobs, threads, g) && CanSubmit(s, thread)
    ensures ThreadsFit(code, Step(code, s, Submit(thread, fn)), jobs + [fn], threads + [thread], g)
  {
    forall i | 0 <= i < |s.received|
      ensures SerialOutcome(code, jobs, g, s.received[i].future) ==
              SerialOutcome(code, jobs + [fn], g, s.received[i].future)
    {
      OutcomePrefix(code, jobs, fn, g, s.received[i].future);
    }
  }

  // Worker steps

  lemma TickQueues(code: Code, s: Executor, jobs: seq<Closure>)
    requires QueueInOrder(s, jobs) && (s.worker.Busy? ==> s.worker.future < |s.futures|)
    ensures QueueInOrder(Ticked(code, s), jobs)
  {
  }

  lemma TakeFits(code: Code, s: Executor, jobs: seq<Closure>, g: Graph, worked: nat)
    requires Ends(code) && QueueInOrder(s, jobs) && WorkerFits(code, s, jobs, g, worked) && s.worker.Idle? &&
             s.queue != []
    ensures WorkerFits(code, Ticked(code, s), jobs, g, worked + 1)
  {
  }

  /** A step inside a closure leaves it ending the same way, one step later. */
  lemma RestStep(code: Code, c: Closure, callers: seq<Outcome -> Closure>, g: Graph)
    requires Ends(code)
    ensures var m, rest := code.move(c), Rest(code, c, callers, g);
            match m
            case Touch(write, next) =>
              var after := Rest(code, next(g), callers, write(g));
              rest == (after.0, after.1, after.2 + 1)
            case Run(fn, andThen) =>
              var after := Rest(code, fn, callers + [andThen], g);
              rest == (after.0, after.1, after.2 + 1)
            case End(o) =>
              if callers == [] then rest == (o, g, 1)
              else
                var after := Rest(code, callers[|callers| - 1](o), callers[..|callers| - 1], g);
                rest == (after.0, after.1, after.2 + 1)
  {
    if code.move(c).Run? {
      assert (callers + [code.move(c).andThen])[..|callers|] == callers;
    }
  }

  /** What one step leaves of the closure in progress: one step less, or the end. */
  ghost predicate OneStepOn(code: Code, s: Executor, h: Executor)
    requires Ends(code) && s.worker.Busy?
  {
    var rest := Rest(code, s.worker.current, s.worker.callers, s.graph);
    && h.queue == s.queue
    && match h.worker
       case Busy(f, c, callers) =>
         var after := Rest(code, c, callers, h.graph);
         f == s.worker.future && rest == (after.0, after.1, after.2 + 1)
       case Idle => rest.1 == h.graph && rest.2 == 1
  }

  lemma InsideStep(code: Code, s: Executor)
    requires Ends(code) && s.worker.Busy? && s.worker.future < |s.futures|
    ensures OneStepOn(code, s, Ticked(code, s))
  {
    RestStep(code, s.worker.current, s.worker.callers, s.graph);
  }

  lemma OneStepFits(code: Code, s: Executor, h: Executor, jobs: seq<Closure>, g: Graph, worked: nat)
    requires Ends(code) && WorkerFits(code, s, jobs, g, worked) && s.worker.Busy? && OneStepOn(code, s, h)
    ensures WorkerFits(code, h, jobs, g, worked + 1)
  {
  }

  lemma InsideFits(code: Code, s: Executor, h: Executor, jobs: seq<Closure>, g: Graph, worked: nat)
    requires Ends(code) && QueueInOrder(s, jobs) && WorkerFits(code, s, jobs, g, worked) && s.worker.Busy? &&
             h == Ticked(code, s)
    ensures WorkerFits(code, h, jobs, g, worked + 1)
  {
    InsideStep(code, s);
    OneStepFits(code, s, h, jobs, g, worked);
  }

  lemma TickFutures(code: Code, s: Executor, jobs: seq<Closure>, g: Graph, worked: nat)
    requires Ends(code) && QueueInOrder(s, jobs) && WorkerFits(code, s, jobs, g, worked) && FuturesFit(code, s, jobs, g)
    ensures FuturesFit(code, Ticked(code, s), jobs, g)
  {
    var h := Ticked(code, s);
    if s.worker.Busy? { RestStep(code, s.worker.current, s.worker.callers, s.graph); }
    forall t: nat | t < |jobs| ensures FutureFits(code, h, jobs, g, t) {
      assert FutureFits(code, s, jobs, g, t);
    }
  }

  /** What holds after every run. */
  ghost predicate Fits(code: Code, s: Executor, jobs: seq<Closure>, threads: seq<nat>, g: Graph, worked: nat)
    requires Ends(code)
  {
    QueueInOrder(s, jobs) && FuturesFit(code, s, jobs, g) && WorkerFits(code, s, jobs, g, worked) &&
        ThreadsFit(code, s, jobs, threads, g)
  }

  lemma SubmitFits(code: Code, s: Executor, jobs: seq<Closure>, threads: seq<nat>, g: Graph, worked: nat, thread: nat,
                   fn: Closure)
    requires Ends(code) && Fits(code, s, jobs, threads, g, worked) && CanSubmit(s, thread)
    ensures Fits(code, Step(code, s, Submit(thread, fn)), jobs + [fn], threads + [thread], g, worked)
  {
    SubmitQueues(code, s, jobs, thread, fn);
    SubmitFutures(code, s, jobs, g, thread, fn);
    SubmitWorker(code, s, jobs, g, worked, thread, fn);
    SubmitThreads(code, s, jobs, threads, g, thread, fn);
  }

  lemma TickThreads(code: Code, s: Executor, jobs: seq<Closure>, threads: seq<nat>, g: Graph)
    requires Ends(code) && ThreadsFit(code, s, jobs, threads, g)
    ensures ThreadsFit(code, Ticked(code, s), jobs, threads, g)
  {
    var h := Ticked(code, s);
    assert h.waiting == s.waiting && h.received == s.received;
  }

  lemma TickWorker(code: Code, s: Executor, jobs: seq<Closure>, g: Graph, worked: nat)
    requires Ends(code) && QueueInOrder(s, jobs) && WorkerFits(code, s, jobs, g, worked)
    ensures WorkerFits(code, Ticked(code, s), jobs, g, worked + if HasWork(s) then 1 else 0)
  {
    if s.worker.Busy? {
      InsideFits(code, s, Ticked(code, s), jobs, g, worked);
    } else if s.queue != [] {
      TakeFits(code, s, jobs, g, worked);
    }
  }

  lemma TickFits(code: Code, s: Executor, jobs: seq<Closure>, threads: seq<nat>, g: Graph, worked: nat)
    requires Ends(code) && Fits(code, s, jobs, threads, g, worked)
    ensures Fits(code, Ticked(code, s), jobs, threads, g, worked + if HasWork(s) then 1 else 0)
  {
    TickQueues(code, s, jobs);
    TickFutures(code, s, jobs, g, worked);
    TickWorker(code, s, jobs, g, worked);
    TickThreads(code, s, jobs, threads, g);
  }

  lemma ReceiveFutures(code: Code, s: Executor, jobs: seq<Closure>, g: Graph, thread: nat)
    requires Ends(code) && |s.futures| == |jobs| && FuturesFit(code, s, jobs, g)
    ensures FuturesFit(code, Step(code, s, Receive(thread)), jobs, g)
  {
    forall t: nat | t < |jobs| ensures FutureFits(code, Step(code, s, Receive(thread)), jobs, g, t) {
      assert FutureFits(code, s, jobs, g, t);
    }
  }

  lemma ReceiveThreads(code: Code, s: Executor, jobs: seq<Closure>, threads: seq<nat>, g: Graph, thread: nat)
    requires Ends(code) && |s.futures| == |jobs| && FuturesFit(code, s, jobs, g) &&
             ThreadsFit(code, s, jobs, threads, g)
    ensures ThreadsFit(code, Step(code, s, Receive(thread)), jobs, threads, g)
  {
    if CanReceive(s, thread) { assert FutureFits(code, s, jobs, g, s.waiting[thread]); }
  }

  lemma ReceiveFits(code: Code, s: Executor, jobs: seq<Closure>, threads: seq<nat>, g: Graph, worked: nat, thread: nat)
    requires Ends(code) && Fits(code, s, jobs, threads, g, worked)
    ensures Fits(code, Step(code, s, Receive(thread)), jobs, threads, g, worked)
  {
    ReceiveFutures(code, s, jobs, g, thread);
    ReceiveThreads(code, s, jobs, threads, g, thread);
    var h := Step(code, s, Receive(thread));
    assert h.queue == s.queue && h.worker == s.worker && h.graph == s.graph && h.futures == s.futures;
  }

  lemma StepFits(code: Code, s: Executor, jobs: (seq<Closure>, seq<nat>), g: Graph, worked: nat, e: Event)
    requires Ends(code) && Fits(code, s, jobs.0, jobs.1, g, worked)
    ensures var after := WithEvent(s, jobs, e);
            Fits(code, Step(code, s, e), after.0, after.1, g, worked + if e.Tick? && HasWork(s) then 1 else 0)
  {
    match e
    case Submit(thread, fn) => if CanSubmit(s, thread) { SubmitFits(code, s, jobs.0, jobs.1, g, worked, thread, fn); }
    case Tick => TickFits(code, s, jobs.0, jobs.1, g, worked);
    case Receive(thread) => ReceiveFits(code, s, jobs.0, jobs.1, g, worked, thread);
  }

  /** Over every interleaving of threads and worker: closures are taken in the order they were submitted,
      one at a time; the graph, and every outcome, are those of calling the closures directly one after
      another; every thread receives the outcome of its own closure, once. */
  lemma {:induction false} RunSerial(code: Code, g: Graph, run: seq<Event>)
    requires Ends(code)
    ensures var jobs := Submitted(code, g, run);
            Fits(code, After(code, g, run), jobs.0, jobs.1, g, Worked(code, g, run))
  {
    if run == [] {
      BootFits(code, g);
    } else {
      var init := run[..|run| - 1];
      RunSerial(code, g, init);
      StepFits(code, After(code, g, init), Submitted(code, g, init), g, Worked(code, g, init), run[|run| - 1]);
    }
  }

  lemma BootFits(code: Code, g: Graph)
    requires Ends(code)
    ensures Fits(code, Boot(g), [], [], g, 0)
  {
  }

  lemma {:induction false} SerialGrows(code: Code, jobs: seq<Closure>, g: Graph, m: nat, n: nat)
    requires Ends(code) && m <= n <= |jobs|
    ensures Serial(code, jobs, g, m).1 + n - m <= Serial(code, jobs, g, n).1
  {
    if m == n {
    } else {
      SerialGrows(code, jobs, g, m, n - 1);
    }
  }

  lemma {:induction false} RestTakesSteps(code: Code, c: Closure, callers: seq<Outcome -> Closure>, g: Graph)
    requires Ends(code)
    ensures Rest(code, c, callers, g).2 >= 1
    decreases code.rank(c)
  {
    RestStep(code, c, callers, g);
  }

  /** A submitted closure is finished exactly when the worker has taken as many steps as calling it and
      all closures before it takes: later submissions never delay it, and it never waits for itself. */
  lemma FinishedExactlyWhen(code: Code, g: Graph, run: seq<Event>, t: nat)
    requires Ends(code) && t < |Submitted(code, g, run).0|
    ensures var s, jobs := After(code, g, run), Submitted(code, g, run).0;
            t < |s.futures| && (s.futures[t].Some? <==> Worked(code, g, run) >= Serial(code, jobs, g, t + 1).1)
  {
    RunSerial(code, g, run);
    var s, jobs, worked := After(code, g, run), Submitted(code, g, run).0, Worked(code, g, run);
    FitsFinished(code, s, jobs, g, worked, t);
  }

  lemma FitsFinished(code: Code, s: Executor, jobs: seq<Closure>, g: Graph, worked: nat, t: nat)
    requires Ends(code) && QueueInOrder(s, jobs) && WorkerFits(code, s, jobs, g, worked) &&
             FuturesFit(code, s, jobs, g) && t < |jobs|
    ensures s.futures[t].Some? <==> worked >= Serial(code, jobs, g, t + 1).1
  {
    var d := Finished(s, jobs);
    assert FutureFits(code, s, jobs, g, t);
    if s.worker.Busy? {
      RestTakesSteps(code, s.worker.current, s.worker.callers, s.graph);
      if t < d { SerialGrows(code, jobs, g, t + 1, d); } else { SerialGrows(code, jobs, g, d + 1, t + 1); }
    } else {
      if t < d { SerialGrows(code, jobs, g, t + 1, d); } else { SerialGrows(code, jobs, g, d, t + 1); }
    }
  }

  /** Nobody waits in vain: while some closure is unfinished the worker has something to do. */
  lemma WorkWhileUnfinished(code: Code, g: Graph, run: seq<Event>)
    requires Ends(code)
    ensures var s := After(code, g, run);
            HasWork(s) <==> exists t :: 0 <= t < |s.futures| && s.futures[t].None?
  {
    RunSerial(code, g, run);
    var s, jobs := After(code, g, run), Submitted(code, g, run).0;
    var d := Finished(s, jobs);
    if HasWork(s) {
      assert FutureFits(code, s, jobs, g, d);
    } else {
      forall t: nat | t < |s.futures| ensures s.futures[t].Some? { assert FutureFits(code, s, jobs, g, t); }
    }
  }

  // ----- the worker's loop

  function TickedTimes(code: Code, s: Executor, n: nat): Executor
    decreases n
  {
    if n == 0 then s else TickedTimes(code, Ticked(code, s), n - 1)
  }

  /** The state once the worker, undisturbed, is through with the closure in progress. */
  ghost function Settled(code: Code, s: Executor): Executor
    requires Ends(code) && s.worker.Busy? && s.worker.future < |s.futures|
  {
    var rest := Rest(code, s.worker.current, s.worker.callers, s.graph);
    s.(futures := s.futures[s.worker.future := Some(rest.0)], graph := rest.1, worker := Idle)
  }

  /** Step by step the worker gets where a direct call gets at once. */
  lemma {:induction false} TicksSettle(code: Code, s: Executor, n: nat)
    requires Ends(code) && s.worker.Busy? && s.worker.future < |s.futures|
    requires n == Rest(code, s.worker.current, s.worker.callers, s.graph).2
    ensures TickedTimes(code, s, n) == Settled(code, s)
    decreases n
  {
    RestStep(code, s.worker.current, s.worker.callers, s.graph);
    RestTakesSteps(code, s.worker.current, s.worker.callers, s.graph);
    var h := Ticked(code, s);
    if !h.worker.Busy? {
    } else {
      TicksSettle(code, h, n - 1);
    }
  }

  class RuntimeExecutor {
    const code: Code
    var queue: seq<Item>
    var futures: seq<Option<Outcome>>
    var graph: Graph
    var waiting: map<nat, nat>
    var received: seq<Receipt>

    /** Between two iterations of the loop the worker is idle. */
    function Value(): Executor
      reads this
    {
      Executor(queue, futures, Idle, graph, waiting, received)
    }

    constructor (code: Code, g: Graph)
      ensures this.code == code && Value() == Boot(g)
    {
      this.code := code;
      queue, futures, graph, waiting, received := [], [], g, map[], [];
    }

    /** `run` called on the worker thread itself: the closure is called in place. */
    method RunInline(fn: Closure) returns (outcome: Outcome)
      requires Ends(code)
      modifies this`graph
      ensures var r := Meaning(code, fn, old(graph)); outcome == r.0 && graph == r.1
      decreases code.rank(fn)
    {
      match code.move(fn)
      case End(o) => outcome := o;
      case Touch(write, next) =>
        var after := next(graph);
        graph := write(graph);
        outcome := RunInline(after);
      case Run(inner, andThen) =>
        var o := RunInline(inner);
        outcome := RunInline(andThen(o));
    }

    /** `run` called on a request thread, up to where it blocks on its future. */
    method Submit(thread: nat, fn: Closure)
      requires thread !in waiting
      modifies this
      ensures Value() == Step(code, old(Value()), Event.Submit(thread, fn))
    {
      var future := |futures|;
      futures := futures + [None];
      queue := queue + [Item(fn, future)];
      waiting := waiting[thread := future];
    }

    /** The rest of `run` on a request thread: it returns the outcome of its future. */
    method Result(thread: nat) returns (outcome: Outcome)
      requires CanReceive(Value(), thread)
      modifies this
      ensures Value() == Step(code, old(Value()), Receive(thread))
      ensures received == old(received) + [Receipt(thread, old(waiting[thread]), outcome)]
    {
      outcome := futures[waiting[thread]].value;
      received := received + [Receipt(thread, waiting[thread], outcome)];
      waiting := waiting - {thread};
    }

    /** One iteration of the worker's loop, on a queue that is not empty. */
    method ServeNext() returns (ghost steps: nat)
      requires Ends(code) && queue != [] && queue[0].future < |futures|
      modifies this
      ensures Value() == TickedTimes(code, old(Value()), steps)
      ensures steps == Meaning(code, old(queue)[0].fn, old(graph)).2 + 1
    {
      ghost var taken := Ticked(code, Value());
      steps := Meaning(code, queue[0].fn, graph).2 + 1;
      TicksSettle(code, taken, steps - 1);
      var item := queue[0];
      queue := queue[1..];
      var outcome := RunInline(item.fn);
      futures := futures[item.future := Some(outcome)];
    }
  }
}
