/**
 The counters a probe drives: re-entrant timing for instrumented methods and
 enter/exit timing for instrumented lines, with state kept per thread.
 */
module Profiler {
  datatype Kind = Enter | Exit | EnterLine | ExitLine

  /** One probe call: the calling thread and the clock reading it makes. */
  datatype Event = Event(tid: nat, kind: Kind, time: int)

  /** What one thread remembers: `threadState` and `lineState`. */
  datatype Local = Local(depth: int, start: int, lineActive: bool, lineStart: int)

  const FRESH := Local(0, 0, false, 0)

  /** Effect of a probe call on its thread, and what it adds to the two counters. */
  datatype Tally = Tally(local: Local, calls: int, nanos: int)

  function Tick(t: Tally, e: Event): Tally {
    var l := t.local;
    match e.kind
    case Enter => t.(local := l.(depth := l.depth + 1, start := if l.depth == 0 then e.time else l.start))
    case Exit =>
      var after := t.(local := l.(depth := l.depth - 1));
      if l.depth == 1 then after.(calls := t.calls + 1, nanos := t.nanos + (e.time - l.start)) else after
    case EnterLine => t.(local := l.(lineActive := true, lineStart := e.time))
    case ExitLine =>
      if l.lineActive then Tally(l.(lineActive := false), t.calls + 1, t.nanos + (e.time - l.lineStart)) else t
  }

  function TickAll(t: Tally, es: seq<Event>): Tally
    decreases |es|
  {
    if es == [] then t else TickAll(Tick(t, es[0]), es[1..])
  }

  class Profiler {
    var callCount: int
    var totalNanos: int
    var locals: map<nat, Local>

    constructor ()
      ensures callCount == totalNanos == 0 && locals == map[]
    {
      callCount, totalNanos, locals := 0, 0, map[];
    }

    /** Thread-local state starts out fresh the first time a thread asks for it. */
    function LocalOf(tid: nat): Local
      reads this`locals
    {
      if tid in locals then locals[tid] else FRESH
    }

    /** The new state of the whole profiler after `e`, given the old one. */
    twostate predicate Ticked(e: Event)
      reads this
    {
      var t := Tick(Tally(old(LocalOf(e.tid)), old(callCount), old(totalNanos)), e);
      && callCount == t.calls && totalNanos == t.nanos && LocalOf(e.tid) == t.local
      && forall other :: other != e.tid ==> LocalOf(other) == old(LocalOf(other))
    }

    method EnterMethod(tid: nat, now: int)
      modifies this
      ensures Ticked(Event(tid, Enter, now))
    {
      var state := LocalOf(tid);
      if state.depth == 0 {
        state := state.(start := now);
      }
      state := state.(depth := state.depth + 1);
      locals := locals[tid := state];
    }

    method ExitMethod(tid: nat, now: int)
      modifies this
      ensures Ticked(Event(tid, Exit, now))
    {
      var state := LocalOf(tid);
      state := state.(depth := state.depth - 1);
      if state.depth == 0 {
        totalNanos := totalNanos + (now - state.start);
        callCount := callCount + 1;
      }
      locals := locals[tid := state];
    }

    method EnterLineProbe(tid: nat, now: int)
      modifies this
      ensures Ticked(Event(tid, EnterLine, now))
    {
      locals := locals[tid := LocalOf(tid).(lineActive := true, lineStart := now)];
    }

    method ExitLineProbe(tid: nat, now: int)
      modifies this
      ensures Ticked(Event(tid, ExitLine, now))
    {
      var state := LocalOf(tid);
      if state.lineActive {
        totalNanos := totalNanos + (now - state.lineStart);
        callCount := callCount + 1;
        locals := locals[tid := state.(lineActive := false)];
      }
    }

    method Probe(e: Event)
      modifies this
      ensures Ticked(e)
    {
      match e.kind
      case Enter => EnterMethod(e.tid, e.time);
      case Exit => ExitMethod(e.tid, e.time);
      case EnterLine => EnterLineProbe(e.tid, e.time);
      case ExitLine => ExitLineProbe(e.tid, e.time);
    }
  }

  /** The events of one thread, in order. */
  function Project(h: seq<Event>, tid: nat): seq<Event> {
    if h == [] then []
    else Project(h[..|h| - 1], tid) + if h[|h| - 1].tid == tid then [h[|h| - 1]] else []
  }

  /** What one thread's own events amount to. */
  function ThreadTally(h: seq<Event>, tid: nat): Tally { TickAll(Tally(FRESH, 0, 0), Project(h, tid)) }

  function SumCalls(h: seq<Event>, ts: seq<nat>): int {
    if ts == [] then 0 else ThreadTally(h, ts[0]).calls + SumCalls(h, ts[1..])
  }

  function SumNanos(h: seq<Event>, ts: seq<nat>): int {
    if ts == [] then 0 else ThreadTally(h, ts[0]).nanos + SumNanos(h, ts[1..])
  }

  predicate Distinct(ts: seq<nat>) { forall j, k :: 0 <= j < k < |ts| ==> ts[j] != ts[k] }

  predicate Covers(ts: seq<nat>, h: seq<Event>) {
    Distinct(ts) && forall k :: 0 <= k < |h| ==> h[k].tid in ts
  }

  /**
   Any interleaving of any number of threads: the counters are the sums of what
   each thread's own event sequence gives, however the threads were interleaved.
   */
  method Replay(h: seq<Event>, ts: seq<nat>) returns (p: Profiler)
    requires Covers(ts, h)
    ensures p.callCount == SumCalls(h, ts) && p.totalNanos == SumNanos(h, ts)
    ensures forall tid :: p.LocalOf(tid) == ThreadTally(h, tid).local
  {
    hide Tick, TickAll, SumCalls, SumNanos, Project;
    p := new Profiler();
    SumsOfNothing(ts);
    for k := 0 to |h|
      invariant fresh(p)
      invariant p.callCount == SumCalls(h[..k], ts) && p.totalNanos == SumNanos(h[..k], ts)
      invariant forall tid :: p.LocalOf(tid) == ThreadTally(h[..k], tid).local
    {
      var e := h[k];
      TickAdds(ThreadTally(h[..k], e.tid), Tally(p.LocalOf(e.tid), p.callCount, p.totalNanos), e);
      p.Probe(e);
      assert h[..k + 1] == h[..k] + [e];
      OneMoreEvent(h[..k], e, ts);
      OneMoreForThreads(h[..k], e);
    }
    assert h[..|h|] == h;
  }

  lemma {:induction false} SumsOfNothing(ts: seq<nat>)
    ensures SumCalls([], ts) == SumNanos([], ts) == 0
    ensures forall tid :: ThreadTally([], tid) == Tally(FRESH, 0, 0)
  {
    if ts == [] {
    } else {
      SumsOfNothing(ts[1..]);
    }
  }

  lemma {:induction false} TickAllConcat(t: Tally, s: seq<Event>, u: seq<Event>)
    ensures TickAll(t, s + u) == TickAll(TickAll(t, s), u)
    decreases |s|
  {
    if s == [] {
      assert s + u == u;
    } else {
      assert (s + u)[1..] == s[1..] + u;
      TickAllConcat(Tick(t, s[0]), s[1..], u);
    }
  }

  /** What an event adds depends only on the local state of its thread. */
  lemma {:induction false} TickAdds(t: Tally, u: Tally, e: Event)
    requires t.local == u.local
    ensures Tick(t, e).local == Tick(u, e).local
    ensures Tick(t, e).calls - t.calls == Tick(u, e).calls - u.calls
    ensures Tick(t, e).nanos - t.nanos == Tick(u, e).nanos - u.nanos
  {
  }

  lemma {:induction false} TickOne(t: Tally, e: Event)
    ensures TickAll(t, [e]) == Tick(t, e)
  {
    assert [e][1..] == [];
  }

  lemma {:induction false} OneMoreForThread(h: seq<Event>, e: Event, tid: nat)
    ensures ThreadTally(h + [e], tid) == if tid == e.tid then Tick(ThreadTally(h, tid), e) else ThreadTally(h, tid)
  {
    assert (h + [e])[..|h|] == h;
    if tid == e.tid {
      TickAllConcat(Tally(FRESH, 0, 0), Project(h, tid), [e]);
      TickOne(ThreadTally(h, tid), e);
    } else {
      assert Project(h + [e], tid) == Project(h, tid);
    }
  }

  lemma {:induction false} OneMoreForThreads(h: seq<Event>, e: Event)
    ensures forall tid :: ThreadTally(h + [e], tid) == if tid == e.tid then Tick(ThreadTally(h, tid), e)
                                                       else ThreadTally(h, tid)
  {
    forall tid { OneMoreForThread(h, e, tid); }
  }

  lemma {:induction false} OneMoreEvent(h: seq<Event>, e: Event, ts: seq<nat>)
    requires Distinct(ts)
    ensures var before, after := ThreadTally(h, e.tid), Tick(ThreadTally(h, e.tid), e);
            && SumCalls(h + [e], ts) == SumCalls(h, ts) + (if e.tid in ts then after.calls - before.calls else 0)
            && SumNanos(h + [e], ts) == SumNanos(h, ts) + (if e.tid in ts then after.nanos - before.nanos else 0)
  {
    if ts == [] {
    } else {
      OneMoreForThread(h, e, ts[0]);
      OneMoreEvent(h, e, ts[1..]);
      assert e.tid in ts <==> e.tid == ts[0] || e.tid in ts[1..];
    }
  }

  // ----- instrumented methods: well-bracketed threads -----

  /** One activation of the instrumented method, with the activations nested in it. */
  datatype Activation = Activation(start: int, inner: seq<Activation>, stop: int)

  /** An activation still running: when it was entered and what has completed inside it. */
  datatype Frame = Frame(start: int, inner: seq<Activation>)

  /** Everything one thread has done: completed outermost activations, then the
      frames still open, outermost first. */
  datatype ThreadLog = ThreadLog(done: seq<Activation>, open: seq<Frame>)

  function Events(tid: nat, a: Activation): seq<Event> {
    [Event(tid, Enter, a.start)] + AllEvents(tid, a.inner) + [Event(tid, Exit, a.stop)]
  }

  function AllEvents(tid: nat, acts: seq<Activation>): seq<Event> {
    if acts == [] then [] else Events(tid, acts[0]) + AllEvents(tid, acts[1..])
  }

  function OpenEvents(tid: nat, open: seq<Frame>): seq<Event> {
    if open == [] then []
    else [Event(tid, Enter, open[0].start)] + AllEvents(tid, open[0].inner) + OpenEvents(tid, open[1..])
  }

  function LogEvents(tid: nat, log: ThreadLog): seq<Event> { AllEvents(tid, log.done) + OpenEvents(tid, log.open) }

  /** Wall-clock time of the outermost activations; nested ones are inside them. */
  function Duration(acts: seq<Activation>): int {
    if acts == [] then 0 else (acts[0].stop - acts[0].start) + Duration(acts[1..])
  }

  /** At depth zero every activation counts once, whatever is nested in it;
      deeper down nothing counts. */
  lemma {:induction false} ActivationsTally(tid: nat, acts: seq<Activation>, t: Tally)
    requires t.local.depth >= 0
    ensures var r := TickAll(t, AllEvents(tid, acts));
            if t.local.depth > 0 then r == t
            else r.calls == t.calls + |acts| && r.nanos == t.nanos + Duration(acts) && r.local.depth == 0
    decreases acts
  {
    if acts == [] {
    } else {
      var a := acts[0];
      var e0, e1 := Event(tid, Enter, a.start), Event(tid, Exit, a.stop);
      var t0 := Tick(t, e0);
      TickOne(t, e0);
      TickAllConcat(t, [e0], AllEvents(tid, a.inner));
      ActivationsTally(tid, a.inner, t0);
      TickAllConcat(t, [e0] + AllEvents(tid, a.inner), [e1]);
      TickOne(t0, e1);
      TickAllConcat(t, Events(tid, a), AllEvents(tid, acts[1..]));
      ActivationsTally(tid, acts[1..], Tick(t0, e1));
    }
  }

  lemma {:induction false} OpenTally(tid: nat, open: seq<Frame>, t: Tally)
    requires t.local.depth >= 0
    ensures var r := TickAll(t, OpenEvents(tid, open));
            r.calls == t.calls && r.nanos == t.nanos && r.local.depth == t.local.depth + |open|
    decreases |open|
  {
    if open == [] {
    } else {
      var e := Event(tid, Enter, open[0].start);
      TickOne(t, e);
      TickAllConcat(t, [e], AllEvents(tid, open[0].inner));
      ActivationsTally(tid, open[0].inner, Tick(t, e));
      TickAllConcat(t, [e] + AllEvents(tid, open[0].inner), OpenEvents(tid, open[1..]));
      OpenTally(tid, open[1..], Tick(t, e));
    }
  }

  /** How many activations are open after the events, or more exits than enters. */
  function Depth(es: seq<Event>): int {
    if es == [] then 0 else Depth(es[..|es| - 1]) + if es[|es| - 1].kind == Enter then 1 else -1
  }

  /** Enters and exits of one thread that starts with `d` activations open, never more
      exits than there are activations to leave; the thread may be cut off anywhere. */
  predicate BracketedFrom(tid: nat, es: seq<Event>, d: int) {
    && (forall k :: 0 <= k < |es| ==> es[k].tid == tid && es[k].kind in {Enter, Exit})
    && (forall n :: 0 <= n <= |es| ==> d + Depth(es[..n]) >= 0)
  }

  predicate WellBracketed(tid: nat, es: seq<Event>) { BracketedFrom(tid, es, 0) }

  lemma {:induction false} AllEventsConcat(tid: nat, a: seq<Activation>, b: seq<Activation>)
    ensures AllEvents(tid, a + b) == AllEvents(tid, a) + AllEvents(tid, b)
    decreases |a|
  {
    if a == [] {
      assert a + b == b;
    } else {
      assert (a + b)[1..] == a[1..] + b;
      AllEventsConcat(tid, a[1..], b);
    }
  }

  lemma {:induction false} OpenEventsConcat(tid: nat, a: seq<Frame>, b: seq<Frame>)
    ensures OpenEvents(tid, a + b) == OpenEvents(tid, a) + OpenEvents(tid, b)
    decreases |a|
  {
    if a == [] {
      assert a + b == b;
    } else {
      assert (a + b)[1..] == a[1..] + b;
      OpenEventsConcat(tid, a[1..], b);
    }
  }

  lemma {:induction false} LastFrame(tid: nat, open: seq<Frame>)
    requires open != []
    ensures var n := |open| - 1;
            OpenEvents(tid, open) == OpenEvents(tid, open[..n]) +
                                     ([Event(tid, Enter, open[n].start)] + AllEvents(tid, open[n].inner))
  {
    var n := |open| - 1;
    var last := [open[n]];
    assert open == open[..n] + last && last[1..] == [];
    OpenEventsConcat(tid, open[..n], last);
    assert OpenEvents(tid, last) == [Event(tid, Enter, open[n].start)] + AllEvents(tid, open[n].inner);
  }

  /** The log after one more activation is entered. */
  lemma {:induction false} LogEnter(tid: nat, log: ThreadLog, time: int) returns (log': ThreadLog)
    ensures LogEvents(tid, log') == LogEvents(tid, log) + [Event(tid, Enter, time)]
    ensures |log'.open| == |log.open| + 1
  {
    var f := Frame(time, []);
    log' := log.(open := log.open + [f]);
    LastFrame(tid, log'.open);
    assert log'.open[..|log.open|] == log.open && AllEvents(tid, []) == [];
  }

  lemma {:induction false} OneActivation(tid: nat, f: Frame, time: int)
    ensures AllEvents(tid, [Activation(f.start, f.inner, time)]) ==
            [Event(tid, Enter, f.start)] + AllEvents(tid, f.inner) + [Event(tid, Exit, time)]
  {
    var a := Activation(f.start, f.inner, time);
    assert [a][1..] == [];
    assert AllEvents(tid, [a]) == Events(tid, a) + AllEvents(tid, []);
  }

  lemma {:induction false} NothingOpen(tid: nat)
    ensures OpenEvents(tid, []) == []
  {
  }

  /** The log after the innermost activation is left. */
  lemma {:induction false} LogExit(tid: nat, log: ThreadLog, time: int) returns (log': ThreadLog)
    requires log.open != []
    ensures LogEvents(tid, log') == LogEvents(tid, log) + [Event(tid, Exit, time)]
    ensures |log'.open| == |log.open| - 1
  {
    hide AllEvents, OpenEvents;
    var n := |log.open| - 1;
    var f, outer := log.open[n], log.open[..n];
    var a := Activation(f.start, f.inner, time);
    LastFrame(tid, log.open);
    OneActivation(tid, f, time);
    if n == 0 {
      log' := ThreadLog(log.done + [a], []);
      AllEventsConcat(tid, log.done, [a]);
      assert outer == [];
      NothingOpen(tid);
    } else {
      var g := outer[n - 1];
      var g' := g.(inner := g.inner + [a]);
      log' := log.(open := outer[..n - 1] + [g']);
      AllEventsConcat(tid, g.inner, [a]);
      LastFrame(tid, outer);
      LastFrame(tid, log'.open);
      assert log'.open[..n - 1] == outer[..n - 1];
    }
  }

  /** Every well-bracketed sequence is the events of some log. */
  lemma {:induction false} LogExists(tid: nat, es: seq<Event>) returns (log: ThreadLog)
    requires WellBracketed(tid, es)
    ensures LogEvents(tid, log) == es && |log.open| == Depth(es)
    decreases |es|
  {
    if es == [] {
      log := ThreadLog([], []);
    } else {
      var n := |es| - 1;
      assert forall k :: 0 <= k <= n ==> es[..n][..k] == es[..k];
      var before := LogExists(tid, es[..n]);
      assert es == es[..n] + [es[n]] && es[..|es|] == es;
      if es[n].kind == Enter {
        log := LogEnter(tid, before, es[n].time);
      } else {
        log := LogExit(tid, before, es[n].time);
      }
    }
  }

  lemma {:induction false} DepthConcat(a: seq<Event>, b: seq<Event>)
    ensures Depth(a + b) == Depth(a) + Depth(b)
    decreases |b|
  {
    if b == [] {
      assert a + b == a;
    } else {
      assert (a + b)[..|a + b| - 1] == a + b[..|b| - 1];
      DepthConcat(a, b[..|b| - 1]);
    }
  }

  lemma {:induction false} FromConcat(tid: nat, a: seq<Event>, b: seq<Event>, d: int)
    requires BracketedFrom(tid, a, d) && BracketedFrom(tid, b, d + Depth(a))
    ensures BracketedFrom(tid, a + b, d) && Depth(a + b) == Depth(a) + Depth(b)
  {
    hide Depth;
    DepthConcat(a, b);
    forall n | 0 <= n <= |a + b| ensures d + Depth((a + b)[..n]) >= 0 {
      if n <= |a| {
        assert (a + b)[..n] == a[..n];
      } else {
        assert (a + b)[..n] == a + b[..n - |a|];
        DepthConcat(a, b[..n - |a|]);
      }
    }
  }

  lemma {:induction false} FromOne(tid: nat, kind: Kind, time: int, d: int)
    requires kind in {Enter, Exit} && d >= 0 && (kind == Exit ==> d > 0)
    ensures Depth([Event(tid, kind, time)]) == (if kind == Enter then 1 else -1)
    ensures BracketedFrom(tid, [Event(tid, kind, time)], d)
  {
    var e := [Event(tid, kind, time)];
    assert e[..0] == [] && e[..1] == e;
  }

  lemma {:induction false} ActivationsBracket(tid: nat, acts: seq<Activation>, d: int)
    requires d >= 0
    ensures BracketedFrom(tid, AllEvents(tid, acts), d) && Depth(AllEvents(tid, acts)) == 0
    decreases acts
  {
    if acts == [] {
    } else {
      var a := acts[0];
      var enter, inner, exit := [Event(tid, Enter, a.start)], AllEvents(tid, a.inner), [Event(tid, Exit, a.stop)];
      FromOne(tid, Enter, a.start, d);
      ActivationsBracket(tid, a.inner, d + 1);
      FromOne(tid, Exit, a.stop, d + 1);
      ActivationsBracket(tid, acts[1..], d);
      hide Depth, BracketedFrom;
      FromConcat(tid, enter, inner, d);
      FromConcat(tid, enter + inner, exit, d);
      FromConcat(tid, Events(tid, a), AllEvents(tid, acts[1..]), d);
    }
  }

  lemma {:induction false} OpenBracket(tid: nat, open: seq<Frame>, d: int)
    requires d >= 0
    ensures BracketedFrom(tid, OpenEvents(tid, open), d)
    decreases |open|
  {
    if open == [] {
    } else {
      var enter, inner := [Event(tid, Enter, open[0].start)], AllEvents(tid, open[0].inner);
      FromOne(tid, Enter, open[0].start, d);
      ActivationsBracket(tid, open[0].inner, d + 1);
      OpenBracket(tid, open[1..], d + 1);
      hide Depth, BracketedFrom;
      FromConcat(tid, enter, inner, d);
      FromConcat(tid, enter + inner, OpenEvents(tid, open[1..]), d);
    }
  }

  /** Well bracketed are exactly the events of nested activations, cut off anywhere. */
  lemma {:induction false} BracketedIff(tid: nat, es: seq<Event>)
    ensures WellBracketed(tid, es) <==> exists log :: LogEvents(tid, log) == es
  {
    if WellBracketed(tid, es) {
      var log := LogExists(tid, es);
    }
    forall log | LogEvents(tid, log) == es ensures WellBracketed(tid, es) {
      ActivationsBracket(tid, log.done, 0);
      OpenBracket(tid, log.open, 0);
      FromConcat(tid, AllEvents(tid, log.done), OpenEvents(tid, log.open), 0);
      assert BracketedFrom(tid, es, 0);
    }
  }

  function CompletedCalls(logs: map<nat, ThreadLog>, ts: seq<nat>): int
    requires forall t :: t in ts ==> t in logs
  {
    if ts == [] then 0 else |logs[ts[0]].done| + CompletedCalls(logs, ts[1..])
  }

  function CompletedTime(logs: map<nat, ThreadLog>, ts: seq<nat>): int
    requires forall t :: t in ts ==> t in logs
  {
    if ts == [] then 0 else Duration(logs[ts[0]].done) + CompletedTime(logs, ts[1..])
  }

  /**
   With every thread well bracketed, the call count is the number of completed
   outermost activations and the total time is the sum of their durations.
   */
  lemma {:induction false} WellBracketedTotals(h: seq<Event>, ts: seq<nat>, logs: map<nat, ThreadLog>)
    requires forall t :: t in ts ==> t in logs && Project(h, t) == LogEvents(t, logs[t])
    ensures SumCalls(h, ts) == CompletedCalls(logs, ts)
    ensures SumNanos(h, ts) == CompletedTime(logs, ts)
    decreases |ts|
  {
    if ts == [] {
    } else {
      var t := ts[0];
      TickAllConcat(Tally(FRESH, 0, 0), AllEvents(t, logs[t].done), OpenEvents(t, logs[t].open));
      ActivationsTally(t, logs[t].done, Tally(FRESH, 0, 0));
      OpenTally(t, logs[t].open, TickAll(Tally(FRESH, 0, 0), AllEvents(t, logs[t].done)));
      WellBracketedTotals(h, ts[1..], logs);
    }
  }

  /** So for threads that only ever bracket well there are logs the totals are read off from. */
  lemma {:induction false} BracketedTotals(h: seq<Event>, ts: seq<nat>) returns (logs: map<nat, ThreadLog>)
    requires forall t :: t in ts ==> WellBracketed(t, Project(h, t))
    ensures forall t :: t in ts ==> t in logs && Project(h, t) == LogEvents(t, logs[t])
    ensures SumCalls(h, ts) == CompletedCalls(logs, ts) && SumNanos(h, ts) == CompletedTime(logs, ts)
  {
    logs := LogsExist(h, ts);
    WellBracketedTotals(h, ts, logs);
  }

  lemma {:induction false} LogsExist(h: seq<Event>, ts: seq<nat>) returns (logs: map<nat, ThreadLog>)
    requires forall t :: t in ts ==> WellBracketed(t, Project(h, t))
    ensures forall t :: t in ts ==> t in logs && Project(h, t) == LogEvents(t, logs[t])
    decreases |ts|
  {
    hide WellBracketed, LogEvents, Project;
    if ts == [] {
      logs := map[];
    } else {
      var rest := LogsExist(h, ts[1..]);
      var log := LogExists(ts[0], Project(h, ts[0]));
      logs := rest[ts[0] := log];
    }
  }

  // ----- line probes, in any order -----

  predicate OnlyLineProbes(es: seq<Event>) { forall k :: 0 <= k < |es| ==> es[k].kind in {EnterLine, ExitLine} }

  /** Event `i` is the latest enter before `j`. */
  predicate LatestEnter(es: seq<Event>, i: int, j: int)
    requires 0 <= j <= |es|
  {
    && 0 <= i < j && es[i].kind == EnterLine
    && forall k :: i < k < j ==> es[k].kind != EnterLine
  }

  predicate NoExitBetween(es: seq<Event>, i: int, j: int)
    requires 0 <= i <= j <= |es|
  {
    forall k :: i <= k < j ==> es[k].kind != ExitLine
  }

  /** An exit counts when some enter has happened since the last exit. */
  ghost predicate Counted(es: seq<Event>, j: int)
    requires 0 <= j < |es|
  {
    es[j].kind == ExitLine && exists i :: LatestEnter(es, i, j) && NoExitBetween(es, i, j)
  }

  /** Number of counted exits among the first `n` events. */
  ghost function CountedExits(es: seq<Event>, n: nat): int
    requires n <= |es|
  {
    if n == 0 then 0 else CountedExits(es, n - 1) + if Counted(es, n - 1) then 1 else 0
  }

  /** Time from the latest enter to each counted exit, summed. */
  ghost function CountedTime(es: seq<Event>, n: nat): int
    requires n <= |es|
  {
    if n == 0 then 0
    else if Counted(es, n - 1) then
      var i :| LatestEnter(es, i, n - 1) && NoExitBetween(es, i, n - 1);
      CountedTime(es, n - 1) + (es[n - 1].time - es[i].time)
    else CountedTime(es, n - 1)
  }

  lemma {:induction false} LineTally(es: seq<Event>, n: nat)
    requires OnlyLineProbes(es) && n <= |es|
    ensures var t := TickAll(Tally(FRESH, 0, 0), es[..n]);
            && t.calls == CountedExits(es, n) && t.nanos == CountedTime(es, n)
            && (t.local.lineActive <==> exists i :: LatestEnter(es, i, n) && NoExitBetween(es, i, n))
            && (forall i :: t.local.lineActive && LatestEnter(es, i, n) ==> t.local.lineStart == es[i].time)
    decreases n
  {
    if n == 0 {
    } else {
      var e := es[n - 1];
      var before := TickAll(Tally(FRESH, 0, 0), es[..n - 1]);
      LineTally(es, n - 1);
      assert es[..n] == es[..n - 1] + [e];
      TickAllConcat(Tally(FRESH, 0, 0), es[..n - 1], [e]);
      TickOne(before, e);
      if e.kind == EnterLine {
        assert LatestEnter(es, n - 1, n) && NoExitBetween(es, n - 1, n);
        assert !Counted(es, n - 1);
      } else {
        assert forall i :: LatestEnter(es, i, n) <==> LatestEnter(es, i, n - 1);
        assert forall i :: 0 <= i < n ==> !NoExitBetween(es, i, n);
        assert Counted(es, n - 1) <==> before.local.lineActive;
      }
    }
  }

  ghost function AllCountedExits(h: seq<Event>, ts: seq<nat>): int {
    if ts == [] then 0 else CountedExits(Project(h, ts[0]), |Project(h, ts[0])|) + AllCountedExits(h, ts[1..])
  }

  ghost function AllCountedTime(h: seq<Event>, ts: seq<nat>): int {
    if ts == [] then 0 else CountedTime(Project(h, ts[0]), |Project(h, ts[0])|) + AllCountedTime(h, ts[1..])
  }

  /** Line probes, any number of threads, enters and exits in any order: the
      counters hold exactly the exits that follow an enter on their own thread. */
  lemma {:induction false} LineTotals(h: seq<Event>, ts: seq<nat>)
    requires forall t :: t in ts ==> OnlyLineProbes(Project(h, t))
    ensures SumCalls(h, ts) == AllCountedExits(h, ts) && SumNanos(h, ts) == AllCountedTime(h, ts)
    decreases |ts|
  {
    if ts == [] {
    } else {
      var es := Project(h, ts[0]);
      assert es[..|es|] == es;
      LineTally(es, |es|);
      LineTotals(h, ts[1..]);
    }
  }
}
