/**
 * The process-wide command queue (`_queueCommand`): a FIFO of `[wd, cmd, cb]`
 * entries. Enqueueing pushes to the tail and starts the entry when it is the
 * only one; when a started process exits, the head is removed, the exited
 * entry's callback runs, and then the new head (if any) is started.
 *
 * The spawner is outside the model: starting a process appends a `Launched`
 * event and adds the request to `running`; the exit of a running process is
 * an input event. A callback may itself enqueue requests before it returns
 * (`reentrant`); the application's callbacks never do, and the model shows
 * what would happen if one did.
 */
module CommandQueue {
  import opened Exec

  /** One `[wd, cmd, cb]` entry; the callback is known by an identifier. */
  datatype Request = Request(wd: string, cmd: string, callback: nat)

  /** What the queue does, in order: start a process, or call a callback (which sees the queue's length). */
  datatype Event =
    | Launched(request: Request)
    | Called(request: Request, result: ExecResult, queueLength: nat)

  datatype QueueState = QueueState(
    pending: seq<Request>,     // `this._queue`
    running: seq<Request>,     // started and not yet exited, in start order
    log: seq<Event>,           // everything the queue has done
    submitted: seq<Request>)   // every request ever enqueued

  const Empty := QueueState([], [], [], [])

  function Head(q: seq<Request>): seq<Request> {
    if q == [] then [] else [q[0]]
  }

  /** The requests whose callbacks have run, in the order they ran. */
  function CalledRequests(log: seq<Event>): (called: seq<Request>)
    ensures |called| <= |log|
  {
    if log == [] then []
    else CalledRequests(log[..|log| - 1]) + (if log[|log| - 1].Called? then [log[|log| - 1].request] else [])
  }

  /** The requests that were started, in the order they were started. */
  function LaunchedRequests(log: seq<Event>): seq<Request> {
    if log == [] then []
    else LaunchedRequests(log[..|log| - 1]) + (if log[|log| - 1].Launched? then [log[|log| - 1].request] else [])
  }

  lemma LaunchedRequestsAppend(log: seq<Event>, e: Event)
    ensures LaunchedRequests(log + [e]) == LaunchedRequests(log) + (if e.Launched? then [e.request] else [])
  {
    assert (log + [e])[..|log|] == log;
  }

  /** `run(wd, cmd, cb)`: the process is started. */
  function Launch(s: QueueState, r: Request): QueueState {
    s.(running := s.running + [r], log := s.log + [Launched(r)])
  }

  /** `_queueCommand(wd, cmd, cb)`. */
  function EnqueueStep(s: QueueState, r: Request): QueueState {
    var s' := s.(pending := s.pending + [r], submitted := s.submitted + [r]);
    if |s'.pending| == 1 then Launch(s', r) else s'
  }

  /** Several `_queueCommand` calls in a row. */
  function EnqueueAll(s: QueueState, rs: seq<Request>): QueueState {
    if rs == [] then s else EnqueueStep(EnqueueAll(s, rs[..|rs| - 1]), rs[|rs| - 1])
  }

  /**
   * The process of `running[p]` exits with `result`: the head of the queue is
   * removed and the exited request's callback runs, seeing what is left.
   */
  function Complete(s: QueueState, p: nat, result: ExecResult): QueueState
    requires p < |s.running|
  {
    var pending := if s.pending == [] then [] else s.pending[1..];
    s.(pending := pending,
       running := s.running[..p] + s.running[p + 1..],
       log := s.log + [Called(s.running[p], result, |pending|)])
  }

  /** After the callback: the head, if there is one, is started. */
  function Resume(s: QueueState): QueueState {
    if s.pending != [] then Launch(s, s.pending[0]) else s
  }

  /** A whole exit: completion, the callback enqueueing `reentrant`, then the restart. */
  function ExitStep(s: QueueState, p: nat, result: ExecResult, reentrant: seq<Request>): QueueState
    requires p < |s.running|
  {
    Resume(EnqueueAll(Complete(s, p, result), reentrant))
  }

  /** Launches and callbacks alternate, and each callback belongs to the launch before it. */
  ghost predicate Alternating(log: seq<Event>) {
    && (forall i :: 0 <= i < |log| ==> (log[i].Launched? <==> i % 2 == 0))
    && (forall i :: 0 < i < |log| && log[i].Called? ==> log[i].request == log[i - 1].request)
  }

  /**
   * The queue invariant: exactly the head is in flight when the queue is not
   * empty, nothing otherwise; what has been submitted is what has completed
   * followed by what is pending; and a process is started only after the
   * previous one's callback has returned.
   */
  ghost predicate Valid(s: QueueState) {
    && s.running == Head(s.pending)
    && s.submitted == CalledRequests(s.log) + s.pending
    && Alternating(s.log)
    && (s.pending == [] <==> |s.log| % 2 == 0)
    && (s.pending != [] ==> s.log[|s.log| - 1] == Launched(s.pending[0]))
  }

  lemma AlternatingExtend(log: seq<Event>, e: Event)
    requires Alternating(log)
    requires |log| % 2 == 0 ==> e.Launched?
    requires |log| % 2 == 1 ==> e.Called? && e.request == log[|log| - 1].request
    ensures Alternating(log + [e])
  {
    assert forall i :: 0 <= i < |log| ==> (log + [e])[i] == log[i];
  }

  lemma CalledRequestsAppend(log: seq<Event>, e: Event)
    ensures CalledRequests(log + [e]) == CalledRequests(log) + (if e.Called? then [e.request] else [])
  {
    assert (log + [e])[..|log|] == log;
  }

  /** Enqueueing keeps the invariant. */
  lemma EnqueueKeepsValid(s: QueueState, r: Request)
    requires Valid(s)
    ensures Valid(EnqueueStep(s, r))
    ensures EnqueueStep(s, r).pending == s.pending + [r]
  {
    if s.pending == [] {
      var log := s.log + [Launched(r)];
      AlternatingExtend(s.log, Launched(r));
      CalledRequestsAppend(s.log, Launched(r));
      assert EnqueueStep(s, r) == QueueState([r], [r], log, s.submitted + [r]);
      ValidParts(QueueState([r], [r], log, s.submitted + [r]));
    } else {
      assert s.submitted + [r] == CalledRequests(s.log) + (s.pending + [r]);
      assert EnqueueStep(s, r) == s.(pending := s.pending + [r], submitted := s.submitted + [r]);
      ValidParts(s.(pending := s.pending + [r], submitted := s.submitted + [r]));
    }
  }

  /** Enqueueing behind a non-empty queue starts nothing. */
  lemma {:induction false} EnqueueAllBehind(s: QueueState, rs: seq<Request>)
    requires s.pending != []
    ensures EnqueueAll(s, rs) == s.(pending := s.pending + rs, submitted := s.submitted + rs)
  {
    if rs != [] {
      EnqueueAllBehind(s, rs[..|rs| - 1]);
      assert s.pending + rs[..|rs| - 1] + [rs[|rs| - 1]] == s.pending + rs;
      assert s.submitted + rs[..|rs| - 1] + [rs[|rs| - 1]] == s.submitted + rs;
    }
  }

  /** Enqueueing into an empty queue starts the first request, and only that one. */
  lemma {:induction false} EnqueueAllIntoEmpty(s: QueueState, rs: seq<Request>)
    requires s.pending == [] && rs != []
    ensures EnqueueAll(s, rs) == s.(pending := rs, submitted := s.submitted + rs,
                                    running := s.running + [rs[0]], log := s.log + [Launched(rs[0])])
  {
    if |rs| == 1 {
      assert rs[..0] == [];
    } else {
      EnqueueAllIntoEmpty(s, rs[..|rs| - 1]);
      assert rs[..|rs| - 1] + [rs[|rs| - 1]] == rs;
      assert s.submitted + rs[..|rs| - 1] + [rs[|rs| - 1]] == s.submitted + rs;
    }
  }

  /**
   * The exit of the running process with a callback that enqueues nothing:
   * the head's callback runs, seeing the queue without it, then the next
   * request starts; the invariant is kept.
   */
  lemma ExitKeepsValid(s: QueueState, result: ExecResult)
    requires Valid(s) && s.pending != []
    ensures |s.running| == 1
    ensures var s' := ExitStep(s, 0, result, []);
      && Valid(s')
      && s'.pending == s.pending[1..]
      && s'.submitted == s.submitted
      && s'.log == s.log + [Called(s.pending[0], result, |s.pending| - 1)] + LaunchOfHead(s.pending[1..])
  {
    if |s.pending| > 1 {
      ExitBehindShape(s, result, []);
      BehindStateValid(s, result, []);
      assert s.pending[1..] + [] == s.pending[1..];
      assert [Called(s.pending[0], result, |s.pending| - 1), Launched(s.pending[1])]
             == [Called(s.pending[0], result, |s.pending| - 1)] + LaunchOfHead(s.pending[1..]);
    } else {
      ExitLastShape(s, result);
      LastStateValid(s, result);
    }
  }

  /** The state after the exit of the last queued request, when its callback enqueues nothing. */
  lemma ExitLastShape(s: QueueState, result: ExecResult)
    requires |s.running| == 1 && |s.pending| == 1
    ensures ExitStep(s, 0, result, []) == QueueState([], [], s.log + [Called(s.running[0], result, 0)], s.submitted)
  {
    assert s.running[..0] + s.running[1..] == [];
    assert Complete(s, 0, result) == QueueState([], [], s.log + [Called(s.running[0], result, 0)], s.submitted);
  }

  lemma LastStateValid(s: QueueState, result: ExecResult)
    requires Valid(s) && |s.pending| == 1
    ensures Valid(QueueState([], [], s.log + [Called(s.pending[0], result, 0)], s.submitted))
  {
    var e := Called(s.pending[0], result, 0);
    AlternatingExtend(s.log, e);
    CalledRequestsAppend(s.log, e);
  }

  /** The launch events of the pending head, if there is one. */
  function LaunchOfHead(q: seq<Request>): seq<Event> {
    if q == [] then [] else [Launched(q[0])]
  }

  /** The state after an exit while other requests are still queued. */
  lemma ExitBehindShape(s: QueueState, result: ExecResult, reentrant: seq<Request>)
    requires |s.running| == 1 && |s.pending| > 1
    ensures ExitStep(s, 0, result, reentrant)
            == QueueState(s.pending[1..] + reentrant, [s.pending[1]],
                          s.log + [Called(s.running[0], result, |s.pending| - 1), Launched(s.pending[1])],
                          s.submitted + reentrant)
  {
    var e := Called(s.running[0], result, |s.pending| - 1);
    var s1 := Complete(s, 0, result);
    assert s.running[..0] + s.running[1..] == [];
    assert s1 == QueueState(s.pending[1..], [], s.log + [e], s.submitted);
    EnqueueAllBehind(s1, reentrant);
    var s2 := EnqueueAll(s1, reentrant);
    assert (s.pending[1..] + reentrant)[0] == s.pending[1];
    assert s2.log + [Launched(s.pending[1])] == s.log + [e, Launched(s.pending[1])];
  }

  /** The state after an exit that drains the queue, when the callback enqueues. */
  lemma ExitDrainedShape(s: QueueState, result: ExecResult, reentrant: seq<Request>)
    requires |s.running| == 1 && |s.pending| == 1 && reentrant != []
    ensures ExitStep(s, 0, result, reentrant)
            == QueueState(reentrant, [reentrant[0], reentrant[0]],
                          s.log + [Called(s.running[0], result, 0), Launched(reentrant[0]), Launched(reentrant[0])],
                          s.submitted + reentrant)
  {
    var e := Called(s.running[0], result, 0);
    var s1 := Complete(s, 0, result);
    assert s.running[..0] + s.running[1..] == [];
    assert s1 == QueueState([], [], s.log + [e], s.submitted);
    EnqueueAllIntoEmpty(s1, reentrant);
    var s2 := EnqueueAll(s1, reentrant);
    assert s2 == QueueState(reentrant, [reentrant[0]], s.log + [e, Launched(reentrant[0])], s.submitted + reentrant);
    assert s2.log + [Launched(reentrant[0])] == s.log + [e, Launched(reentrant[0]), Launched(reentrant[0])];
  }

  /** The invariant holds of the state an exit leaves behind a queue of two or more. */
  lemma BehindStateValid(s: QueueState, result: ExecResult, reentrant: seq<Request>)
    requires Valid(s) && |s.pending| > 1
    ensures Valid(QueueState(s.pending[1..] + reentrant, [s.pending[1]],
                             s.log + [Called(s.pending[0], result, |s.pending| - 1), Launched(s.pending[1])],
                             s.submitted + reentrant))
  {
    var e := Called(s.pending[0], result, |s.pending| - 1);
    var f := Launched(s.pending[1]);
    var log := s.log + [e] + [f];
    AlternatingExtend(s.log, e);
    AlternatingExtend(s.log + [e], f);
    CalledRequestsAppend(s.log, e);
    CalledRequestsAppend(s.log + [e], f);
    HandOver(s.submitted, CalledRequests(s.log), s.pending, reentrant);
    assert s.log + [e, f] == log;
    ValidParts(QueueState(s.pending[1..] + reentrant, [s.pending[1]], log, s.submitted + reentrant));
  }

  /** The completed request moves from the front of the queue to the completed ones. */
  lemma HandOver(submitted: seq<Request>, called: seq<Request>, pending: seq<Request>, reentrant: seq<Request>)
    requires submitted == called + pending && pending != []
    ensures submitted + reentrant == (called + [pending[0]]) + (pending[1..] + reentrant)
  {
    assert pending == [pending[0]] + pending[1..];
  }

  /** `Valid`, conjunct by conjunct. */
  lemma ValidParts(t: QueueState)
    requires t.running == Head(t.pending)
    requires t.submitted == CalledRequests(t.log) + t.pending
    requires Alternating(t.log)
    requires t.pending == [] <==> |t.log| % 2 == 0
    requires t.pending != [] ==> t.log[|t.log| - 1] == Launched(t.pending[0])
    ensures Valid(t)
  {
  }

  /** A callback that enqueues while other requests are still queued keeps the invariant. */
  lemma ReentrantBehindKeepsValid(s: QueueState, result: ExecResult, reentrant: seq<Request>)
    requires Valid(s) && |s.pending| > 1
    ensures |s.running| == 1
    ensures Valid(ExitStep(s, 0, result, reentrant))
  {
    ExitBehindShape(s, result, reentrant);
    BehindStateValid(s, result, reentrant);
  }

  /**
   * A callback that enqueues once the queue has drained gets its first
   * request started twice: once by the enqueue, once by the exit handler.
   */
  lemma DrainedReentrantLaunchesTwice(s: QueueState, result: ExecResult, reentrant: seq<Request>)
    requires Valid(s) && |s.pending| == 1 && reentrant != []
    ensures |s.running| == 1
    ensures ExitStep(s, 0, result, reentrant).running == [reentrant[0], reentrant[0]]
    ensures !Valid(ExitStep(s, 0, result, reentrant))
  {
    ExitDrainedShape(s, result, reentrant);
  }

  /** With a re-entrant callback, the invariant survives exactly when the queue had not drained. */
  lemma ReentrantExit(s: QueueState, result: ExecResult, reentrant: seq<Request>)
    requires Valid(s) && s.pending != [] && reentrant != []
    ensures Valid(ExitStep(s, 0, result, reentrant)) <==> |s.pending| > 1
  {
    if |s.pending| > 1 {
      ReentrantBehindKeepsValid(s, result, reentrant);
    } else {
      DrainedReentrantLaunchesTwice(s, result, reentrant);
    }
  }

  /** An input to the queue: a new request, or the exit of the process in flight. */
  datatype Input = Submit(request: Request) | Exit(result: ExecResult)

  /** The queue after a run of inputs, callbacks never enqueueing; an exit with nothing running cannot occur and is ignored. */
  function Replay(inputs: seq<Input>): QueueState {
    if inputs == [] then Empty
    else
      var s := Replay(inputs[..|inputs| - 1]);
      match inputs[|inputs| - 1]
      case Submit(r) => EnqueueStep(s, r)
      case Exit(result) => if s.running != [] then ExitStep(s, 0, result, []) else s
  }

  /**
   * Whatever the interleaving of submissions and exits: at most one process is
   * in flight, callbacks run in submission order (those that ran are a prefix
   * of the submissions), and launches and callbacks alternate.
   */
  lemma {:induction false} ReplayIsFifo(inputs: seq<Input>)
    ensures Valid(Replay(inputs))
    ensures |Replay(inputs).running| <= 1
    ensures CalledRequests(Replay(inputs).log) <= Replay(inputs).submitted
  {
    if inputs != [] {
      var s := Replay(inputs[..|inputs| - 1]);
      ReplayIsFifo(inputs[..|inputs| - 1]);
      match inputs[|inputs| - 1]
      case Submit(r) => EnqueueKeepsValid(s, r);
      case Exit(result) => if s.running != [] { ExitKeepsValid(s, result); }
    }
  }

  /** The queue as the application holds it; `log` and `submitted` record what it did. */
  class CommandQueue {
    var pending: seq<Request>
    var running: seq<Request>
    var log: seq<Event>
    var submitted: seq<Request>

    function State(): QueueState
      reads this
    {
      QueueState(pending, running, log, submitted)
    }

    constructor ()
      ensures State() == Empty
    {
      pending, running, log, submitted := [], [], [], [];
    }

    /** `run(wd, cmd, cb)`: start the request's process. */
    method Run(r: Request)
      modifies this
      ensures State() == Launch(old(State()), r)
    {
      running := running + [r];
      log := log + [Launched(r)];
    }

    /** `_queueCommand(wd, cmd, cb)`. */
    method Enqueue(r: Request)
      modifies this
      ensures State() == EnqueueStep(old(State()), r)
    {
      pending := pending + [r];
      submitted := submitted + [r];
      if |pending| == 1 {
        Run(r);
      }
    }

    /** The completion callback `run` registered, for the process of `running[p]`. */
    method ProcessExited(p: nat, result: ExecResult, reentrant: seq<Request>)
      requires p < |running|
      modifies this
      ensures State() == ExitStep(old(State()), p, result, reentrant)
    {
      var req := running[p];
      running := running[..p] + running[p + 1..];
      if pending != [] {
        pending := pending[1..];
      }
      log := log + [Called(req, result, |pending|)];
      ghost var s1 := State();
      for i := 0 to |reentrant|
        invariant State() == EnqueueAll(s1, reentrant[..i])
      {
        assert reentrant[..i + 1][..i] == reentrant[..i];
        Enqueue(reentrant[i]);
      }
      assert reentrant[..|reentrant|] == reentrant;
      if |pending| > 0 {
        Run(pending[0]);
      }
    }
  }

  /** Three requests submitted at once complete in submission order. */
  method ThreeRequestsInOrder(a: Request, b: Request, c: Request, ra: ExecResult, rb: ExecResult, rc: ExecResult)
    returns (order: seq<Request>)
    ensures order == [a, b, c]
  {
    var q := new CommandQueue();
    q.Enqueue(a);
    q.Enqueue(b);
    q.Enqueue(c);
    ghost var s0 := q.State();
    ThreeQueuedValid(s0, a, b, c);
    ExitKeepsValid(s0, ra);
    q.ProcessExited(0, ra, []);
    ghost var s1 := q.State();
    assert s1.pending == [b, c];
    ExitKeepsValid(s1, rb);
    q.ProcessExited(0, rb, []);
    ghost var s2 := q.State();
    assert s2.pending == [c];
    ExitKeepsValid(s2, rc);
    q.ProcessExited(0, rc, []);
    DrainedCalledAll(q.State());
    order := CalledRequests(q.log);
  }

  lemma ThreeQueuedValid(s: QueueState, a: Request, b: Request, c: Request)
    requires s == QueueState([a, b, c], [a], [Launched(a)], [a, b, c])
    ensures Valid(s)
  {
    assert [Launched(a)][..0] == [];
  }

  /** Once the queue has drained, every submitted request's callback has run, in submission order. */
  lemma DrainedCalledAll(s: QueueState)
    requires Valid(s) && s.pending == []
    ensures CalledRequests(s.log) == s.submitted
  {
    assert CalledRequests(s.log) + [] == CalledRequests(s.log);
  }

  /** A callback that enqueues once the queue has drained gets its request started twice. */
  method DrainedReentrantCallback(a: Request, x: Request, ra: ExecResult) returns (launches: seq<Request>)
    ensures launches == [a, x, x]
  {
    var q := new CommandQueue();
    q.Enqueue(a);
    assert q.State() == QueueState([a], [a], [Launched(a)], [a]);
    ExitDrainedShape(q.State(), ra, [x]);
    q.ProcessExited(0, ra, [x]);
    DrainedLaunches(a, x, ra);
    launches := LaunchedRequests(q.log);
  }

  lemma DrainedLaunches(a: Request, x: Request, ra: ExecResult)
    ensures LaunchedRequests([Launched(a)] + [Called(a, ra, 0), Launched(x), Launched(x)]) == [a, x, x]
  {
    var l1 := [Launched(a)];
    var l2 := l1 + [Called(a, ra, 0)];
    var l3 := l2 + [Launched(x)];
    var l4 := l3 + [Launched(x)];
    assert l4 == [Launched(a)] + [Called(a, ra, 0), Launched(x), Launched(x)];
    LaunchedRequestsAppend([], Launched(a));
    assert [] + [Launched(a)] == l1;
    LaunchedRequestsAppend(l1, Called(a, ra, 0));
    LaunchedRequestsAppend(l2, Launched(x));
    LaunchedRequestsAppend(l3, Launched(x));
  }
}
