/**
 The exit handshake with pause-on-exit: the JVM's shutdown hook, the event loop,
 the clients and the unloading of the agent, step by step in any interleaving.
 */
module Shutdown {
  datatype Message = ShutdownStarting | ShutdownRequest | Stop | Resume | Unrelated

  /** The hook announces itself, waits to be noticed, and waits to be let go. */
  datatype Hook = NotCalled | AwaitsStarted | AwaitsRelease | Returned

  /** The loop, and where it is in the handling of a shutdown request. */
  datatype Loop = Initializing | Running | Preparing | Releasing | Exiting | Leaving | Left

  datatype Unload = NotUnloading | AwaitsLoop | Unloaded

  datatype State = State(
    queue: seq<Message>,
    startedSem: nat,
    sem: nat,
    shutdownSem: nat,
    hook: Hook,
    loop: Loop,
    unload: Unload,
    paused: bool,
    shuttingDown: bool,
    /** The process was ended on the spot, without the exit sequence. */
    killed: bool,
    /** How often a shutdown request has been handled and the hook released. */
    released: nat,
    /** How often the hook has been noticed. */
    noticed: nat)

  function Init(paused: bool): State {
    State([], 0, 0, 0, NotCalled, Initializing, NotUnloading, paused, false, false, 0, 0)
  }

  // ----- the steps of each thread -----

  /** The hook is called and tells the loop; when it cannot, it notices itself. */
  ghost predicate HookCalled(s: State, s': State) {
    && s.hook == NotCalled
    && (s' == s.(hook := AwaitsStarted, queue := s.queue + [ShutdownStarting])
        || s' == s.(hook := AwaitsStarted, startedSem := s.startedSem + 1, noticed := s.noticed + 1))
  }

  function HookWaits(s: State): State
    requires (s.hook == AwaitsStarted && s.startedSem > 0) || (s.hook == AwaitsRelease && s.sem > 0)
  {
    if s.hook == AwaitsStarted then s.(hook := AwaitsRelease, startedSem := s.startedSem - 1)
    else s.(hook := Returned, sem := s.sem - 1)
  }

  ghost predicate HookStep(s: State, s': State) {
    || HookCalled(s, s')
    || (s.hook == AwaitsStarted && s.startedSem > 0 && s' == HookWaits(s))
    || (s.hook == AwaitsRelease && s.sem > 0 && s' == HookWaits(s))
  }

  /** One message taken off the queue and dispatched. */
  function Dispatched(s: State): State
    requires s.loop == Running && s.queue != []
  {
    var t := s.(queue := s.queue[1..]);
    match s.queue[0]
    case ShutdownStarting => t.(shuttingDown := true, startedSem := t.startedSem + 1, noticed := t.noticed + 1)
    case ShutdownRequest => if t.paused then t.(killed := true) else t.(loop := Preparing)
    case Stop => t.(loop := Leaving)
    case Resume => t.(paused := false)
    case Unrelated => t
  }

  /** The loop can take a step of its own: it is not waiting for a message. */
  predicate LoopReady(s: State) { s.loop !in {Left} && (s.loop == Running ==> s.queue != []) }

  /** `Preparing` posts one semaphore, `Releasing` the other; `Leaving` posts the last one. */
  function LoopSteps(s: State): State
    requires LoopReady(s)
  {
    match s.loop
    case Initializing => s.(loop := Running)
    case Running => Dispatched(s)
    case Preparing => s.(loop := Releasing, startedSem := s.startedSem + 1, noticed := s.noticed + 1)
    case Releasing => s.(loop := Exiting, sem := s.sem + 1, released := s.released + 1)
    case Exiting => s.(loop := Leaving)
    case Leaving => s.(loop := Left, shutdownSem := s.shutdownSem + 1)
    case Left => s
  }

  ghost predicate LoopStep(s: State, s': State) {
    || (LoopReady(s) && s' == LoopSteps(s))
    || (s.loop == Initializing && s' == s.(loop := Left, shutdownSem := s.shutdownSem + 1))
  }

  /** Anybody may ask for anything but the end of the loop; a message may get lost. */
  ghost predicate ClientStep(s: State, s': State) {
    exists m :: m in {ShutdownRequest, Resume, Unrelated} && s' == s.(queue := s.queue + [m])
  }

  /** `ps_destroy` asks the loop to stop, if there is memory to, and waits for it. */
  ghost predicate UnloadStep(s: State, s': State) {
    || (s.unload == NotUnloading &&
        (s' == s.(unload := AwaitsLoop, queue := s.queue + [Stop]) || s' == s.(unload := AwaitsLoop)))
    || (s.unload == AwaitsLoop && s.shutdownSem > 0 && s' == s.(unload := Unloaded, shutdownSem := s.shutdownSem - 1))
  }

  ghost predicate Next(s: State, s': State) {
    !s.killed && (HookStep(s, s') || LoopStep(s, s') || ClientStep(s, s') || UnloadStep(s, s'))
  }

  ghost predicate IsRun(run: seq<State>, paused: bool) {
    && run != [] && run[0] == Init(paused)
    && forall i :: 0 <= i < |run| - 1 ==> Next(run[i], run[i + 1])
  }

  // ----- what every step keeps -----

  predicate Past(loop: Loop, released: nat) {
    match loop
    case Initializing => released == 0
    case Running => released == 0
    case Preparing => released == 0
    case Releasing => released == 0
    case Exiting => released == 1
    case Leaving => released <= 1
    case Left => released <= 1
  }

  predicate Inv(s: State) {
    && s.startedSem + (if s.hook in {AwaitsRelease, Returned} then 1 else 0) == s.noticed
    && s.sem + (if s.hook == Returned then 1 else 0) == s.released
    && s.shutdownSem + (if s.unload == Unloaded then 1 else 0) == (if s.loop == Left then 1 else 0)
    && Past(s.loop, s.released)
    && (s.loop == Releasing || s.released > 0 ==> s.noticed > 0)
  }

  lemma {:induction false} HookKeeps(s: State, s': State)
    requires Inv(s) && HookStep(s, s')
    ensures Inv(s')
  {
  }

  lemma {:induction false} DispatchKeeps(s: State)
    requires Inv(s) && s.loop == Running && s.queue != []
    ensures Inv(Dispatched(s))
  {
    var t := s.(queue := s.queue[1..]);
    match s.queue[0]
    case ShutdownStarting => assert Dispatched(s).noticed == t.noticed + 1;
    case ShutdownRequest =>
    case Stop =>
    case Resume =>
    case Unrelated =>
  }

  lemma {:induction false} LoopKeeps(s: State, s': State)
    requires Inv(s) && LoopStep(s, s')
    ensures Inv(s')
  {
    hide Dispatched;
    if LoopReady(s) && s.loop == Running {
      DispatchKeeps(s);
    }
  }

  lemma {:induction false} UnloadKeeps(s: State, s': State)
    requires Inv(s) && UnloadStep(s, s')
    ensures Inv(s')
  {
  }

  lemma {:induction false} StepKeeps(s: State, s': State)
    requires Inv(s) && Next(s, s')
    ensures Inv(s')
  {
    hide HookStep, LoopStep, UnloadStep;
    if HookStep(s, s') {
      HookKeeps(s, s');
    } else if LoopStep(s, s') {
      LoopKeeps(s, s');
    } else if UnloadStep(s, s') {
      UnloadKeeps(s, s');
    }
  }

  lemma {:induction false} RunKeeps(run: seq<State>, paused: bool, i: nat)
    requires IsRun(run, paused) && i < |run|
    ensures Inv(run[i])
  {
    if i == 0 {
    } else {
      RunKeeps(run, paused, i - 1);
      StepKeeps(run[i - 1], run[i]);
    }
  }

  // ----- the theorems -----

  /** The hook never returns before a shutdown request has been handled. */
  lemma {:induction false} HookWaitsForRequest(run: seq<State>, paused: bool, i: nat)
    requires IsRun(run, paused) && i < |run| && run[i].hook == Returned
    ensures run[i].released == 1
    ensures exists j :: 0 <= j < i && run[j].loop == Releasing && run[j + 1] == LoopSteps(run[j])
  {
    RunKeeps(run, paused, i);
    var j := ReleaseHappened(run, paused, i);
  }

  lemma {:induction false} ReleaseHappened(run: seq<State>, paused: bool, i: nat) returns (j: nat)
    requires IsRun(run, paused) && i < |run| && run[i].released > 0
    ensures j < i && run[j].loop == Releasing && run[j + 1] == LoopSteps(run[j])
  {
    if run[i - 1].released > 0 {
      j := ReleaseHappened(run, paused, i - 1);
    } else {
      j := i - 1;
      OnlyReleasing(run[j], run[i]);
    }
  }

  lemma {:induction false} OnlyReleasing(s: State, s': State)
    requires Next(s, s') && s'.released != s.released
    ensures s.loop == Releasing && s' == LoopSteps(s)
  {
  }

  /** Once a request has been handled the hook is never blocked again, whether it
      was called before or is called after: its own steps alone make it return. */
  lemma {:induction false} HookCanFinish(run: seq<State>, paused: bool, i: nat) returns (more: seq<State>)
    requires IsRun(run, paused) && i < |run| && run[i].released > 0 && !run[i].killed
    ensures more != [] && more[0] == run[i] && more[|more| - 1].hook == Returned && |more| <= 4
    ensures forall k :: 0 <= k < |more| - 1 ==> HookStep(more[k], more[k + 1])
  {
    RunKeeps(run, paused, i);
    var s := run[i];
    more := [s];
    if s.hook == NotCalled {
      var t := s.(hook := AwaitsStarted, queue := s.queue + [ShutdownStarting]);
      assert HookCalled(s, t);
      more := more + [t];
      s := t;
    }
    if s.hook == AwaitsStarted {
      var t := HookWaits(s);
      more := more + [t];
      s := t;
    }
    if s.hook == AwaitsRelease {
      var t := HookWaits(s);
      more := more + [t];
      s := t;
    }
  }

  /** Unloading waits for the loop to leave, and is not blocked once it has. */
  lemma {:induction false} UnloadWaitsForLoop(run: seq<State>, paused: bool, i: nat)
    requires IsRun(run, paused) && i < |run|
    ensures run[i].unload == Unloaded ==> run[i].loop == Left
    ensures run[i].unload == AwaitsLoop ==> (run[i].shutdownSem > 0 <==> run[i].loop == Left)
  {
    RunKeeps(run, paused, i);
  }

  // ----- when the loop leaves -----

  /** A message that ends the loop. */
  predicate Ends(m: Message) { m == Stop || m == ShutdownRequest }

  /** The loop has left, or the process has ended. */
  predicate Gone(s: State) { s.loop == Left || s.killed }

  /** The message at place `k` of the queue will end the loop, unless it is past waiting for one. */
  predicate EndsAt(s: State, k: int) {
    s.loop in {Initializing, Running} ==> 0 <= k < |s.queue| && Ends(s.queue[k])
  }

  /** How many steps of its own the loop can take before it has left. */
  function Distance(s: State, k: nat): nat {
    match s.loop
    case Initializing => k + 6
    case Running => k + 5
    case Preparing => 4
    case Releasing => 3
    case Exiting => 2
    case Leaving => 1
    case Left => 0
  }

  /** Steps of all threads from some state on, in any order. */
  ghost predicate Steps(run: seq<State>) {
    run != [] && forall i :: 0 <= i < |run| - 1 ==> Next(run[i], run[i + 1])
  }

  /** Steps of the loop alone, from `s` on. */
  ghost predicate LoopRun(run: seq<State>, s: State) {
    && run != [] && run[0] == s
    && forall i :: 0 <= i < |run| - 1 ==> !run[i].killed && LoopStep(run[i], run[i + 1])
  }

  ghost function LoopMoves(run: seq<State>): nat {
    if |run| < 2 then 0
    else LoopMoves(run[..|run| - 1]) + if LoopStep(run[|run| - 2], run[|run| - 1]) then 1 else 0
  }

  /** The other threads leave the loop where it is and only add to the queue. */
  lemma {:induction false} OthersOnlyAdd(s: State, s': State)
    requires HookStep(s, s') || ClientStep(s, s') || UnloadStep(s, s')
    ensures s'.loop == s.loop && s.queue <= s'.queue
  {
  }

  /** Each step of the loop brings the message closer. */
  lemma {:induction false} LoopComesCloser(s: State, s': State, k: nat) returns (k': nat)
    requires LoopStep(s, s') && EndsAt(s, k)
    ensures Gone(s') || (EndsAt(s', k') && Distance(s', k') < Distance(s, k))
    ensures k' == k || k' + 1 == k
  {
    k' := if s.loop == Running && k > 0 then k - 1 else k;
    if s.loop == Running {
      assert s' == Dispatched(s) && s'.queue == s.queue[1..];
      assert k > 0 ==> s'.queue[k'] == s.queue[k];
    }
  }

  /** No thread can take the message away but the loop. */
  lemma {:induction false} EndStays(s: State, s': State, k: nat) returns (k': nat)
    requires Next(s, s') && EndsAt(s, k)
    ensures Gone(s') || (EndsAt(s', k') && Distance(s', k') + (if LoopStep(s, s') then 1 else 0) <= Distance(s, k))
    ensures k' == k || k' + 1 == k
  {
    hide HookStep, LoopStep, ClientStep, UnloadStep;
    if LoopStep(s, s') {
      k' := LoopComesCloser(s, s', k);
    } else {
      k' := k;
      OthersOnlyAdd(s, s');
    }
  }

  lemma {:induction false} EndComesCloser(run: seq<State>, k: nat) returns (k': nat)
    requires Steps(run) && EndsAt(run[0], k) && forall i :: 0 <= i < |run| ==> !Gone(run[i])
    ensures EndsAt(run[|run| - 1], k') && LoopMoves(run) + Distance(run[|run| - 1], k') <= Distance(run[0], k)
    decreases |run|
  {
    hide Next, LoopStep, Gone, EndsAt, Distance;
    if |run| == 1 {
      k' := k;
    } else {
      var n := |run| - 1;
      var before := EndComesCloser(run[..n], k);
      k' := EndStays(run[n - 1], run[n], before);
    }
  }

  /** With a message that ends it in the queue the loop is never blocked, whatever the
      other threads do and in whatever order, and a bounded number of its own steps
      makes it leave: as long as it has not left it has taken fewer. */
  lemma {:induction false} LoopLeavesAnyway(run: seq<State>, k: nat)
    requires Steps(run) && EndsAt(run[0], k) && forall i :: 0 <= i < |run| ==> !Gone(run[i])
    ensures LoopReady(run[|run| - 1])
    ensures LoopMoves(run) < Distance(run[0], k)
  {
    var k' := EndComesCloser(run, k);
    assert !Gone(run[|run| - 1]);
  }

  /** With such a message, or past waiting for one, the loop by itself gets to leave. */
  lemma {:induction false} LoopLeaves(s: State, k: nat) returns (run: seq<State>)
    requires !s.killed && EndsAt(s, k)
    ensures LoopRun(run, s) && Gone(run[|run| - 1])
    decreases Distance(s, k)
  {
    if s.loop == Left {
      run := [s];
    } else {
      var t := LoopSteps(s);
      var k' := LoopComesCloser(s, t, k);
      if t.killed {
        run := [s, t];
      } else {
        assert EndsAt(t, k') by { assert t.loop == Left || EndsAt(t, k'); }
        var rest := LoopLeaves(t, k');
        run := [s] + rest;
      }
    }
  }

  // ----- what a request leads to -----

  /** The loop takes the message off the queue. */
  predicate Takes(s: State, s': State, m: Message) { s.loop == Running && s.queue == [m] + s'.queue }

  lemma {:induction false} TakesOrNot(s: State, s': State, m: Message)
    requires Next(s, s')
    ensures Takes(s, s', m) ==> s' == Dispatched(s) && s.queue[0] == m
    ensures s'.paused != s.paused ==> Takes(s, s', Resume)
    ensures s'.shuttingDown != s.shuttingDown ==> Takes(s, s', ShutdownStarting)
    ensures s'.killed <==> s.paused && Takes(s, s', ShutdownRequest)
  {
    if s.loop == Running && s.queue != [] {
      assert s.queue == [s.queue[0]] + s.queue[1..];
    }
  }

  /** The VM is held at its start until the loop takes a message that resumes it. */
  lemma {:induction false} PausedIff(run: seq<State>, paused: bool, i: nat)
    requires IsRun(run, paused) && i < |run|
    ensures run[i].paused <==> paused && forall j :: 0 <= j < i ==> !Takes(run[j], run[j + 1], Resume)
  {
    hide Next, Takes;
    if i == 0 {
    } else {
      PausedIff(run, paused, i - 1);
      TakesOrNot(run[i - 1], run[i], Resume);
    }
  }

  /** The flag says whether the loop has noticed the hook. */
  lemma {:induction false} ShuttingDownIff(run: seq<State>, paused: bool, i: nat)
    requires IsRun(run, paused) && i < |run|
    ensures run[i].shuttingDown <==> exists j :: 0 <= j < i && Takes(run[j], run[j + 1], ShutdownStarting)
  {
    hide Next, Takes;
    if i == 0 {
    } else {
      ShuttingDownIff(run, paused, i - 1);
      TakesOrNot(run[i - 1], run[i], ShutdownStarting);
    }
  }

  /** The process is ended on the spot exactly when a request is taken while the VM is held. */
  lemma {:induction false} KilledIff(run: seq<State>, paused: bool, i: nat)
    requires IsRun(run, paused) && i < |run|
    ensures run[i].killed <==> i > 0 && run[i - 1].paused && Takes(run[i - 1], run[i], ShutdownRequest)
  {
    if i > 0 {
      TakesOrNot(run[i - 1], run[i], ShutdownRequest);
    }
  }

  /** Where the loop is when it has taken `n` steps since it took the request. */
  function Stage(n: nat): Loop {
    if n == 0 then Preparing
    else if n == 1 then Releasing
    else if n == 2 then Exiting
    else if n == 3 then Leaving
    else Left
  }

  /** A request that is taken while the VM is not held: whatever the threads do then, the process
      is not ended on the spot, the second step of the loop lets the hook go, and the fourth is
      its leaving; it can take each of them at once. */
  lemma {:induction false} RequestIsHandled(run: seq<State>, paused: bool, j: nat, i: nat)
    requires IsRun(run, paused) && j < i < |run| && Takes(run[j], run[j + 1], ShutdownRequest) && !run[j].paused
    ensures var n := LoopMoves(run[j + 1..i + 1]);
            && !run[i].killed && n <= 4 && run[i].loop == Stage(n)
            && (n < 4 ==> LoopReady(run[i]))
            && run[i].released == if n < 2 then 0 else 1
    decreases i
  {
    hide Next, Takes, LoopStep;
    RunKeeps(run, paused, i);
    if i == j + 1 {
      TakesOrNot(run[j], run[i], ShutdownRequest);
      RunKeeps(run, paused, j);
    } else {
      RequestIsHandled(run, paused, j, i - 1);
      assert run[j + 1..i + 1][..i - j - 1] == run[j + 1..i];
      StageMoves(run[i - 1], run[i]);
    }
  }

  lemma {:induction false} StageMoves(s: State, s': State)
    requires Next(s, s') && s.loop in {Preparing, Releasing, Exiting, Leaving, Left}
    ensures !s'.killed
    ensures LoopStep(s, s') ==> s.loop != Left && s' == LoopSteps(s)
    ensures !LoopStep(s, s') ==> s'.loop == s.loop && s'.released == s.released
  {
  }

  /** So from there on the hook is not blocked: its own steps alone make it return, whether it
      was called before the request or is called after it. */
  lemma {:induction false} RequestFreesHook(run: seq<State>, paused: bool, j: nat, i: nat) returns (more: seq<State>)
    requires IsRun(run, paused) && j < i < |run| && Takes(run[j], run[j + 1], ShutdownRequest) && !run[j].paused
    requires LoopMoves(run[j + 1..i + 1]) >= 2
    ensures more != [] && more[0] == run[i] && more[|more| - 1].hook == Returned && |more| <= 4
    ensures forall k :: 0 <= k < |more| - 1 ==> HookStep(more[k], more[k + 1])
  {
    RequestIsHandled(run, paused, j, i);
    more := HookCanFinish(run, paused, i);
  }

  /** A hook that waits to be noticed is about to be: it can go on at once, or its message is still
      in the queue. */
  lemma {:induction false} HookIsNoticed(run: seq<State>, paused: bool, i: nat)
    requires IsRun(run, paused) && i < |run| && run[i].hook == AwaitsStarted
    ensures run[i].startedSem > 0 || ShutdownStarting in run[i].queue
  {
    if run[i - 1].hook == AwaitsStarted {
      HookIsNoticed(run, paused, i - 1);
      NoticeStays(run[i - 1], run[i]);
    }
  }

  lemma {:induction false} NoticeStays(s: State, s': State)
    requires Next(s, s') && s.hook == AwaitsStarted && s'.hook == AwaitsStarted
    requires s.startedSem > 0 || ShutdownStarting in s.queue
    ensures s'.startedSem > 0 || ShutdownStarting in s'.queue
  {
    if s.loop == Running && s.queue != [] {
      assert s.queue == [s.queue[0]] + s.queue[1..];
    }
  }

  /** Without one the loop stays where it is. */
  lemma {:induction false} LoopStays(run: seq<State>, s: State)
    requires LoopRun(run, s) && !s.killed && s.loop == Running
    requires forall k :: 0 <= k < |s.queue| ==> !Ends(s.queue[k])
    ensures var t := run[|run| - 1];
            && t.loop == Running && !t.killed && t.shutdownSem == s.shutdownSem
            && forall k :: 0 <= k < |t.queue| ==> !Ends(t.queue[k])
    decreases |run|
  {
    if |run| == 1 {
    } else {
      var n := |run| - 1;
      LoopStays(run[..n], s);
      var t, t' := run[n - 1], run[n];
      assert LoopStep(t, t') && t' == Dispatched(t);
      assert t'.queue == t.queue[1..] && !Ends(t.queue[0]);
      assert forall k :: 0 <= k < |t'.queue| ==> t'.queue[k] == t.queue[k + 1];
    }
  }

  /** From any state the loop by itself gets to leave, or the process ends, if and only
      if it is not waiting for a message without one in the queue that ends it. */
  lemma {:induction false} LoopLeavesIff(s: State)
    requires !s.killed
    ensures (exists run: seq<State> :: LoopRun(run, s) && Gone(run[|run| - 1])) <==>
            (s.loop == Running ==> exists k :: 0 <= k < |s.queue| && Ends(s.queue[k]))
  {
    if s.loop == Running && forall k :: 0 <= k < |s.queue| ==> !Ends(s.queue[k]) {
      forall run: seq<State> | LoopRun(run, s) ensures !Gone(run[|run| - 1]) {
        LoopStays(run, s);
      }
    } else if s.loop == Initializing {
      var t := s.(loop := Left, shutdownSem := s.shutdownSem + 1);
      assert LoopRun([s, t], s);
    } else {
      var k: nat :| s.loop == Running ==> k < |s.queue| && Ends(s.queue[k]);
      var run := LoopLeaves(s, k);
    }
  }

  /** When `ps_destroy` waits, the loop by itself lets it pass, or the process ends, if
      and only if the loop is not waiting for a message without one that ends it. */
  lemma {:induction false} UnloadPassesIff(run: seq<State>, paused: bool, i: nat)
    requires IsRun(run, paused) && i < |run| && run[i].unload == AwaitsLoop && !run[i].killed
    ensures (exists more: seq<State> :: LoopRun(more, run[i]) &&
               (more[|more| - 1].killed || more[|more| - 1].shutdownSem > 0)) <==>
            (run[i].loop == Running ==> exists k :: 0 <= k < |run[i].queue| && Ends(run[i].queue[k]))
  {
    RunKeeps(run, paused, i);
    LoopLeavesIff(run[i]);
    forall more: seq<State> | LoopRun(more, run[i])
      ensures more[|more| - 1].shutdownSem > 0 <==> more[|more| - 1].loop == Left
    {
      LoopRunKeeps(more, run[i]);
    }
  }

  lemma {:induction false} LoopKeepsUnload(s: State, s': State)
    requires LoopStep(s, s')
    ensures s'.unload == s.unload
  {
  }

  lemma {:induction false} LoopRunKeeps(run: seq<State>, s: State)
    requires LoopRun(run, s) && Inv(s) && s.unload == AwaitsLoop
    ensures var t := run[|run| - 1]; Inv(t) && t.unload == AwaitsLoop
    decreases |run|
  {
    if |run| == 1 {
    } else {
      hide Inv, LoopStep;
      LoopRunKeeps(run[..|run| - 1], s);
      LoopKeepsUnload(run[|run| - 2], run[|run| - 1]);
      LoopKeeps(run[|run| - 2], run[|run| - 1]);
    }
  }

  /** So the stop message is enough when there is memory for it, and without it what was
      in the queue before decides. */
  lemma {:induction false} StopIsEnough(s: State, s': State)
    requires !s.killed && UnloadStep(s, s') && s'.unload == AwaitsLoop && s.loop == Running
    ensures (exists run: seq<State> :: LoopRun(run, s') && Gone(run[|run| - 1])) <==>
            s'.queue == s.queue + [Stop] || exists k :: 0 <= k < |s.queue| && Ends(s.queue[k])
  {
    LoopLeavesIff(s');
    if s'.queue == s.queue + [Stop] {
      assert Ends(s'.queue[|s.queue|]);
    }
  }

  /** Without memory for the message that stops it, and with no request under
      way, the loop stays where it is and unloading waits for it. */
  lemma {:induction false} UnloadMayWait()
    ensures exists run: seq<State> ::
              IsRun(run, false) && run[|run| - 1].unload == AwaitsLoop && run[|run| - 1].shutdownSem == 0 &&
              run[|run| - 1].loop == Running && !LoopReady(run[|run| - 1])
  {
    var s0 := Init(false);
    var s1 := LoopSteps(s0);
    var s2 := s1.(unload := AwaitsLoop);
    var run := [s0, s1, s2];
    assert LoopStep(s0, s1) && UnloadStep(s1, s2);
    assert IsRun(run, false);
  }
}
