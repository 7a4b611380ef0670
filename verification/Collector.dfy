/**
 The collector thread: one snapshot of every active profiler per tick, late
 ticks made up for, whatever the clock says and whatever profilers come, go and
 count in the meantime, also in the middle of a pass over them.
 */
module Collector {
  import opened SnapshotRing

  /** A profiler as the collector sees it: its flag, its counters, its snapshots. */
  class Monitored {
    var active: bool
    var calls: int
    var nanos: int
    const ring: ProfilerEntry
    /** The number of ticks there had been when it was created. */
    ghost const since: nat

    constructor (size: nat, ghost since: nat)
      requires size > 0
      ensures active && calls == 0 && nanos == 0 && this.since == since && ring.history == []
      ensures forall times: seq<int> :: |times| == since ==> Ok(times)
      ensures fresh(ring) && fresh(ring.buffer)
    {
      active, calls, nanos := true, 0, 0;
      ring := new ProfilerEntry(size);
      this.since := since;
    }

    /** Snapshots lie on the ticks since its creation, without a gap, and up to
        the last tick while it is active. */
    ghost predicate GapFree(times: seq<int>)
      reads this, ring
    {
      && since + |ring.history| <= |times|
      && (active ==> since + |ring.history| == |times|)
      && (forall i :: 0 <= i < |ring.history| ==> ring.history[i].timestamp == times[since + i])
    }

    /** Counters never go down. */
    ghost predicate Rising()
      reads this, ring
    {
      var h := ring.history;
      && calls >= 0 && nanos >= 0
      && (forall i :: 0 <= i < |h| ==> 0 <= h[i].callCount <= calls && 0 <= h[i].totalNanos <= nanos)
      && (forall i, j :: 0 <= i < j < |h| ==> h[i].callCount <= h[j].callCount && h[i].totalNanos <= h[j].totalNanos)
    }

    ghost predicate Ok(times: seq<int>)
      reads this, ring, ring.buffer
    {
      ring.Valid() && GapFree(times) && Rising()
    }

    /** One snapshot of the current counters; the profiler may have been dropped
        since it was seen active. */
    method Sample(timestamp: int, ghost times: seq<int>)
      requires Ok(times) && since + |ring.history| == |times|
      modifies ring, ring.buffer
      ensures Ok(times + [timestamp])
      ensures ring.history == old(ring.history) + [Snapshot(timestamp, calls, nanos)]
    {
      ring.Record(timestamp, calls, nanos);
    }

    /** The previous counts again, or zeros when there are none. */
    method Repeat(timestamp: int, ghost times: seq<int>)
      requires Ok(times) && since + |ring.history| == |times|
      modifies ring, ring.buffer
      ensures Ok(times + [timestamp])
      ensures ring.history == old(ring.history) + [Again(old(ring.history), timestamp)]
    {
      ring.RecordZero(timestamp);
    }

    method Drop(ghost times: seq<int>)
      requires Ok(times)
      modifies this`active
      ensures Ok(times) && !active
    {
      active := false;
    }

    method Count(calls: nat, nanos: nat, ghost times: seq<int>)
      requires Ok(times)
      modifies this`calls, this`nanos
      ensures Ok(times) && this.calls == old(this.calls) + calls && this.nanos == old(this.nanos) + nanos
    {
      this.calls, this.nanos := this.calls + calls, this.nanos + nanos;
    }

    lemma {:induction false} OkMore(times: seq<int>, t: int)
      requires Ok(times) && !active
      ensures Ok(times + [t])
    {
    }
  }

  /** The last snapshot under a new timestamp. */
  function Again(h: seq<Snapshot>, timestamp: int): Snapshot {
    if h == [] then Snapshot(timestamp, 0, 0) else h[|h| - 1].(timestamp := timestamp)
  }

  /** Ticks are a fixed interval apart. */
  ghost predicate Regular(times: seq<int>, tick: int) {
    forall k :: 0 < k < |times| ==> times[k] == times[k - 1] + tick
  }

  lemma {:induction false} RegularRises(times: seq<int>, tick: int, i: nat, j: nat)
    requires Regular(times, tick) && tick > 0 && i < j < |times|
    ensures times[i] < times[j]
    decreases j
  {
    if i == j - 1 {
    } else {
      RegularRises(times, tick, i, j - 1);
    }
  }

  lemma {:induction false} RegularMore(times: seq<int>, tick: int, t: int)
    requires Regular(times, tick) && (times != [] ==> t == times[|times| - 1] + tick)
    ensures Regular(times + [t], tick)
  {
  }

  /** What can be seen of a profiler at some moment. */
  datatype Look = Look(active: bool, calls: int, nanos: int, history: seq<Snapshot>)

  type Looks = map<Monitored, Look>

  /** Nobody counts down or makes a dropped profiler active again. */
  predicate Onward(a: Look, b: Look) { a.calls <= b.calls && a.nanos <= b.nanos && (b.active ==> a.active) }

  /** What the other threads may do: all but take snapshots. */
  ghost predicate ElsewhereBut(v: Looks, w: Looks, but: set<Monitored>) {
    && v.Keys <= w.Keys && but <= v.Keys
    && (forall m :: m in v ==> Onward(v[m], w[m]) && (m !in but ==> w[m].history == v[m].history))
    && (forall m :: m in w && m !in v ==> w[m].history == [])
  }

  lemma {:induction false} ElsewhereTwice(u: Looks, v: Looks, w: Looks, but: set<Monitored>)
    requires ElsewhereBut(u, v, {}) && ElsewhereBut(v, w, but) && but <= u.Keys
    ensures ElsewhereBut(u, w, but)
  {
  }

  /** The profiler has the snapshot of the tick and no other new one; a sampled one
      holds counts it has had during the pass. */
  predicate Gained(a: Look, b: Look, timestamp: int, missed: bool) {
    var h, n := b.history, |a.history|;
    && |h| == n + 1 && h[..n] == a.history
    && if missed then h[n] == Again(a.history, timestamp)
       else h[n].timestamp == timestamp && a.calls <= h[n].callCount <= b.calls && a.nanos <= h[n].totalNanos <= b.nanos
  }

  function TakenLook(a: Look, timestamp: int, missed: bool): Look {
    a.(history := a.history + [if missed then Again(a.history, timestamp) else Snapshot(timestamp, a.calls, a.nanos)])
  }

  /** An active profiler has its snapshot; one dropped meanwhile may have it. */
  predicate Passed(a: Look, b: Look, timestamp: int, missed: bool) {
    (b.active ==> Gained(a, b, timestamp, missed)) && (b.history == a.history || Gained(a, b, timestamp, missed))
  }

  /** The pass over `list` has come to place `i`. */
  ghost predicate PassAt(v: Looks, w: Looks, list: seq<Monitored>, i: int, timestamp: int, missed: bool)
    requires 0 <= i <= |list|
  {
    && ElsewhereBut(v, w, Members(list[..i]))
    && forall j :: 0 <= j < i ==> list[j] in v && Passed(v[list[j]], w[list[j]], timestamp, missed)
  }

  /** One more profiler has had its turn. */
  lemma {:induction false} PassOn(u: Looks, v: Looks, w: Looks, list: seq<Monitored>, i: nat, timestamp: int,
                                  missed: bool)
    requires i < |list| && PassAt(u, v, list, i, timestamp, missed) && ElsewhereBut(v, w, {list[i]})
    requires list[i] in u && list[i] !in list[..i]
    requires Passed(v[list[i]], w[list[i]], timestamp, missed)
    ensures PassAt(u, w, list, i + 1, timestamp, missed)
  {
    hide Passed;
    var m := list[i];
    assert list[..i + 1] == list[..i] + [m];
    assert v[m].history == u[m].history;
    PassedEarlier(u[m], v[m], w[m], timestamp, missed);
    forall j | 0 <= j < i ensures Passed(u[list[j]], w[list[j]], timestamp, missed) {
      assert list[j] in list[..i];
      PassedLater(u[list[j]], v[list[j]], w[list[j]], timestamp, missed);
    }
  }

  /** One profiler's turn: others go on, then its snapshot is taken if it was active. */
  lemma {:induction false} TurnPasses(u: Looks, v: Looks, m: Monitored, timestamp: int, missed: bool)
    requires m in u && ElsewhereBut(u, v, {})
    ensures var w := v[m := TakenLook(v[m], timestamp, missed)];
            ElsewhereBut(u, w, {m}) && Passed(u[m], w[m], timestamp, missed)
    ensures !u[m].active ==> ElsewhereBut(u, v, {m}) && Passed(u[m], v[m], timestamp, missed)
  {
  }

  lemma {:induction false} PassedEarlier(a: Look, b: Look, c: Look, timestamp: int, missed: bool)
    requires Onward(a, b) && b.history == a.history && Passed(b, c, timestamp, missed)
    ensures Passed(a, c, timestamp, missed)
  {
  }

  lemma {:induction false} PassedLater(a: Look, b: Look, c: Look, timestamp: int, missed: bool)
    requires Passed(a, b, timestamp, missed) && Onward(b, c) && c.history == b.history
    ensures Passed(a, c, timestamp, missed)
  {
  }

  // ----- what the snapshots say about the ticks -----

  /** A tick: its time, whether it was missed, and all profilers before and after the pass. */
  datatype Tick = Tick(time: int, missed: bool, before: Looks, after: Looks)

  /** Snapshot `i` has the time of its tick: the previous counts again for a missed tick, and counts
      the profiler had during the pass for any other. */
  ghost predicate TruthAt(ticks: seq<Tick>, m: Monitored, h: seq<Snapshot>, i: nat)
    requires i < |h|
  {
    && m.since + i < |ticks| && h[i].timestamp == ticks[m.since + i].time
    && var t := ticks[m.since + i];
       if t.missed then h[i] == Again(h[..i], t.time)
       else m in t.before && m in t.after && t.before[m].calls <= h[i].callCount <= t.after[m].calls &&
            t.before[m].nanos <= h[i].totalNanos <= t.after[m].nanos
  }

  /** The snapshots of a profiler are those of the ticks since its creation. */
  ghost predicate TellsTruth(ticks: seq<Tick>, m: Monitored, h: seq<Snapshot>) {
    forall i :: 0 <= i < |h| ==> TruthAt(ticks, m, h, i)
  }

  ghost predicate Told(v: Looks, ticks: seq<Tick>) { forall m :: m in v ==> TellsTruth(ticks, m, v[m].history) }

  lemma {:induction false} ToldElsewhere(v: Looks, w: Looks, ticks: seq<Tick>)
    requires Told(v, ticks) && ElsewhereBut(v, w, {})
    ensures Told(w, ticks)
  {
  }

  lemma {:induction false} TruthStays(ticks: seq<Tick>, t: Tick, m: Monitored, h: seq<Snapshot>)
    requires TellsTruth(ticks, m, h)
    ensures TellsTruth(ticks + [t], m, h)
  {
    var all := ticks + [t];
    forall i | 0 <= i < |h| ensures TruthAt(all, m, h, i) {
      assert TruthAt(ticks, m, h, i);
      assert all[m.since + i] == ticks[m.since + i];
    }
  }

  /** One more snapshot, for one more tick. */
  lemma {:induction false} TruthGained(ticks: seq<Tick>, t: Tick, m: Monitored)
    requires m in t.before && m in t.after && Gained(t.before[m], t.after[m], t.time, t.missed)
    requires TellsTruth(ticks, m, t.before[m].history) && m.since + |t.before[m].history| == |ticks|
    ensures TellsTruth(ticks + [t], m, t.after[m].history)
  {
    var was, now, all := t.before[m].history, t.after[m].history, ticks + [t];
    var n := |was|;
    TruthStays(ticks, t, m, was);
    forall i | 0 <= i < |now| ensures TruthAt(all, m, now, i) {
      if i < n {
        assert TruthAt(all, m, was, i) && now[i] == was[i] && now[..i] == was[..i];
      } else {
        assert all[m.since + i] == t && now[..i] == was;
      }
    }
  }

  /** A new snapshot is the one of the last tick. */
  lemma {:induction false} GainedLast(a: Look, b: Look, m: Monitored, times: seq<int>, tick: int, missed: bool)
    requires Regular(times, tick) && tick > 0 && times != [] && Gained(a, b, times[|times| - 1], missed)
    requires m.since + |b.history| <= |times|
    requires forall i :: 0 <= i < |b.history| ==> b.history[i].timestamp == times[m.since + i]
    ensures m.since + |a.history| == |times| - 1
  {
    var at := m.since + |a.history|;
    assert times[at] == times[|times| - 1];
    if at < |times| - 1 {
      RegularRises(times, tick, at, |times| - 1);
    }
  }

  /** One profiler, over a pass: it has the snapshot of the tick, or none, or is new. */
  lemma {:induction false} TruthPassed(before: seq<Tick>, t: Tick, list: seq<Monitored>, m: Monitored, times: seq<int>,
                                       tick: int)
    requires ElsewhereBut(t.before, t.after, Members(list)) && Told(t.before, before) && m in t.after
    requires m in list ==> m in t.before && Passed(t.before[m], t.after[m], t.time, t.missed)
    requires Regular(times, tick) && tick > 0 && times != [] && |before| == |times| - 1
    requires t.time == times[|times| - 1] && m.since + |t.after[m].history| <= |times|
    requires forall i :: 0 <= i < |t.after[m].history| ==> t.after[m].history[i].timestamp == times[m.since + i]
    ensures TellsTruth(before + [t], m, t.after[m].history)
  {
    hide TellsTruth, TruthAt, Gained, Regular;
    if m !in t.before {
      NoHistory(before + [t], m);
    } else if t.after[m].history == t.before[m].history {
      TruthStays(before, t, m, t.before[m].history);
    } else {
      assert m in Members(list);
      GainedLast(t.before[m], t.after[m], m, times, tick, t.missed);
      TruthGained(before, t, m);
    }
  }

  lemma {:induction false} EachTold(v: Looks, ticks: seq<Tick>)
    requires forall m :: m in v ==> TellsTruth(ticks, m, v[m].history)
    ensures Told(v, ticks)
  {
  }

  lemma {:induction false} NoHistory(ticks: seq<Tick>, m: Monitored)
    ensures TellsTruth(ticks, m, [])
  {
  }

  /** `at[k]` is the number of the clock reading made after tick `k`; a tick that was not missed takes
      one more reading before it. Ticks start one interval after the first reading and are one
      interval apart. The first is never missed, and a later one is missed exactly if the reading
      after the tick before it was at or past its time. */
  ghost predicate FollowsClock(clock: seq<int>, at: seq<nat>, ticks: seq<Tick>, tick: int)
    requires clock != []
  {
    && |at| == |ticks|
    && forall k :: 0 <= k < |at| ==>
         Fits(clock, at[..k], ticks[..k], tick, ticks[k].time, ticks[k].missed, at[k])
  }

  /** The reading with that number was made, and was at or past the time. */
  predicate PastDue(clock: seq<int>, c: nat, time: int) { c < |clock| && time <= clock[c] }

  /** The tick can be the next one, with `c` the number of the reading made after it. */
  ghost predicate Fits(clock: seq<int>, at: seq<nat>, ticks: seq<Tick>, tick: int, time: int, missed: bool, c: nat)
    requires clock != []
  {
    && |at| == |ticks|
    && time == (if ticks == [] then clock[0] else ticks[|ticks| - 1].time) + tick
    && (missed <==> at != [] && PastDue(clock, at[|at| - 1], time))
    && c == if at == [] then 2 else at[|at| - 1] + if missed then 1 else 2
  }

  lemma {:induction false} FollowsOn(clock: seq<int>, at: seq<nat>, ticks: seq<Tick>, tick: int, t: Tick, c: nat)
    requires clock != [] && FollowsClock(clock, at, ticks, tick) && Fits(clock, at, ticks, tick, t.time, t.missed, c)
    ensures FollowsClock(clock, at + [c], ticks + [t], tick)
  {
    hide Fits;
    var at', ticks' := at + [c], ticks + [t];
    forall k | 0 <= k < |at'|
      ensures Fits(clock, at'[..k], ticks'[..k], tick, ticks'[k].time, ticks'[k].missed, at'[k])
    {
      assert at'[..k] == at[..k] && ticks'[..k] == ticks[..k];
      if k == |at| {
        assert at[..k] == at && ticks[..k] == ticks;
      }
    }
  }

  /** The next tick and the number of readings made so far, between two ticks. */
  ghost predicate UpTo(clock: seq<int>, at: seq<nat>, ticks: seq<Tick>, tick: int, next: int, c: int)
    requires clock != []
  {
    FollowsClock(clock, at, ticks, tick) && ticks != [] && |at| == |ticks| && at[|at| - 1] == c &&
    next == ticks[|ticks| - 1].time + tick
  }

  /** The same at the top of the loop: no tick yet, or the clock is caught up with. */
  ghost predicate AtTop(clock: seq<int>, at: seq<nat>, ticks: seq<Tick>, tick: int, next: int, c: int)
    requires clock != []
  {
    if ticks == [] then at == [] && c == 1 && next == clock[0] + tick
    else UpTo(clock, at, ticks, tick, next, c - 1) && !PastDue(clock, c - 1, next)
  }

  lemma {:induction false} TopFits(clock: seq<int>, at: seq<nat>, ticks: seq<Tick>, tick: int, next: int, c: int)
    requires clock != [] && AtTop(clock, at, ticks, tick, next, c)
    ensures FollowsClock(clock, at, ticks, tick) && Fits(clock, at, ticks, tick, next, false, c + 1)
  {
  }

  lemma {:induction false} TickTaken(clock: seq<int>, at: seq<nat>, ticks: seq<Tick>, tick: int, next: int, c: nat)
    requires clock != [] && FollowsClock(clock, at + [c], ticks, tick) && ticks != []
    requires ticks[|ticks| - 1].time == next
    ensures UpTo(clock, at + [c], ticks, tick, next + tick, c)
  {
  }

  lemma {:induction false} CaughtUp(clock: seq<int>, at: seq<nat>, ticks: seq<Tick>, tick: int, next: int, c: nat)
    requires clock != [] && UpTo(clock, at, ticks, tick, next, c - 1) && c > 0 && !PastDue(clock, c - 1, next)
    ensures AtTop(clock, at, ticks, tick, next, c) && ticks != []
  {
  }

  lemma {:induction false} AtStart(clock: seq<int>, tick: int)
    requires clock != []
    ensures AtTop(clock, [], [], tick, clock[0] + tick, 1)
  {
  }

  lemma {:induction false} AtEnd(clock: seq<int>, at: seq<nat>, ticks: seq<Tick>, tick: int, next: int, c: int)
    requires clock != [] && AtTop(clock, at, ticks, tick, next, c)
    ensures FollowsClock(clock, at, ticks, tick)
    ensures ticks != [] ==> |at| == |ticks| && at[|at| - 1] == c - 1
  {
  }

  function Members(s: seq<Monitored>): set<Monitored> { set m | m in s }

  predicate Unrepeated(s: seq<Monitored>) { forall j, k :: 0 <= j < k < |s| ==> s[j] != s[k] }

  lemma {:induction false} NoMembers()
    ensures Members([]) == {}
  {
  }

  class Registry {
    const tick: int
    const size: nat
    var entries: seq<Monitored>
    /** Every profiler there has been. */
    ghost var known: set<Monitored>
    ghost var repr: set<object>
    /** The times of the ticks so far. */
    ghost var times: seq<int>
    ghost var ticks: seq<Tick>

    ghost predicate Shape()
      reads this`entries, this`known, this`repr, this`times, known
    {
      && this !in repr && tick > 0 && size > 0 && Regular(times, tick)
      && (forall m :: m in known ==> m in repr && m.ring in repr && m.ring.buffer in repr)
      && (forall a, b :: a in known && b in known && a != b ==> a.ring != b.ring && a.ring.buffer != b.ring.buffer)
      && (forall m :: m in entries ==> m in known)
      && Unrepeated(entries)
      && (forall m :: m in known && m.active ==> m in entries)
    }

    /** The ticks a profiler is up to date with, when those in `pending` still
        wait for their snapshot of the last one. */
    ghost function Seen(m: Monitored, pending: set<Monitored>): seq<int>
      reads this`times
    {
      if m in pending && times != [] then times[..|times| - 1] else times
    }

    ghost predicate ValidBut(pending: set<Monitored>)
      reads this`entries, this`known, this`repr, this`times, known, repr
    {
      && Shape() && pending <= known && (pending != {} ==> times != [])
      && forall m :: m in known ==> m.Ok(Seen(m, pending))
    }

    /** Every snapshot tells the truth about its tick. */
    ghost predicate Logged()
      reads this, known, set m | m in known :: m.ring
    {
      |ticks| == |times| && (forall k :: 0 <= k < |ticks| ==> ticks[k].time == times[k]) && Told(View(), ticks)
    }

    ghost predicate Valid()
      reads this, known, repr, set m | m in known :: m.ring
    {
      ValidBut({}) && Logged()
    }

    constructor (tick: int, size: nat)
      requires tick > 0 && size > 0
      ensures Valid() && entries == [] && times == [] && fresh(repr) && this.tick == tick && this.size == size
    {
      this.tick, this.size := tick, size;
      entries, known, repr, times, ticks := [], {}, {}, [], [];
    }

    lemma {:induction false} ThisApart()
      requires ValidBut({})
      ensures this !in repr
    {
    }

    lemma {:induction false} KnownOk(m: Monitored)
      requires ValidBut({}) && m in known
      ensures m.ring.Valid() && m.GapFree(times) && m.Rising() && Regular(times, tick) && tick > 0
      ensures m.active ==> m in entries
    {
      assert m.Ok(Seen(m, {}));
    }

    /** Every profiler that is active has exactly one snapshot per tick since it
        was created, exactly one interval apart, and its counters never go down. */
    lemma {:induction false} NoGaps(m: Monitored)
      requires Valid() && m in known
      ensures m.ring.Valid() && StrictlyInOrder(m.ring.history) && m.Rising()
      ensures m.active ==> m in entries && m.since + |m.ring.history| == |times|
      ensures forall i :: 0 < i < |m.ring.history| ==>
              m.ring.history[i].timestamp == m.ring.history[i - 1].timestamp + tick
    {
      KnownOk(m);
      hide Valid, Monitored.Rising;
      var h := m.ring.history;
      forall i, j | 0 <= i < j < |h| ensures h[i].timestamp < h[j].timestamp {
        RegularRises(times, tick, m.since + i, m.since + j);
      }
    }

    /** Each of its snapshots tells the truth about its tick, and an active one has one for every
        tick since its creation. */
    lemma {:induction false} Truthful(m: Monitored)
      requires Valid() && m in known
      ensures |ticks| == |times| && forall k :: 0 <= k < |ticks| ==> ticks[k].time == times[k]
      ensures TellsTruth(ticks, m, m.ring.history)
      ensures m.active ==> m.since + |m.ring.history| == |ticks|
    {
      KnownOk(m);
      hide ValidBut, TellsTruth;
      assert m in View();
    }

    // ----- other threads -----

    ghost function View(): Looks
      reads this`known, known, set m | m in known :: m.ring
    {
      map m | m in known :: Look(m.active, m.calls, m.nanos, m.ring.history)
    }

    method FirstFree() returns (i: nat)
      ensures i <= |entries| && (i < |entries| ==> !entries[i].active)
    {
      i := 0;
      while i < |entries| && entries[i].active
        invariant 0 <= i <= |entries|
      {
        i := i + 1;
      }
    }

    /** Puts a new profiler in a free place or at the end. */
    method Put(m: Monitored, i: nat, ghost pending: set<Monitored>)
      requires ValidBut(pending) && i <= |entries| && (i < |entries| ==> !entries[i].active)
      requires m.Ok(times) && {m, m.ring, m.ring.buffer} !! repr + {this}
      modifies this`entries, this`repr, this`known
      ensures ValidBut(pending) && repr == old(repr) + {m, m.ring, m.ring.buffer} && known == old(known) + {m}
      ensures m in entries && forall x :: x in old(entries) && x.active ==> x in entries
    {
      hide Regular, Monitored.Ok;
      ghost var before := entries;
      repr, known := repr + {m, m.ring, m.ring.buffer}, known + {m};
      entries := if i < |entries| then entries[i := m] else entries + [m];
      assert entries[i] == m;
      forall x | x in before && x.active ensures x in entries {
        var k :| 0 <= k < |before| && before[k] == x;
        assert entries[k] == x;
      }
    }

    method PutSeen(m: Monitored, i: nat, ghost pending: set<Monitored>)
      requires m.ring.history == []
      requires ValidBut(pending) && i <= |entries| && (i < |entries| ==> !entries[i].active)
      requires m.Ok(times) && {m, m.ring, m.ring.buffer} !! repr + {this}
      modifies this`entries, this`repr, this`known
      ensures ValidBut(pending) && repr == old(repr) + {m, m.ring, m.ring.buffer}
      ensures m in entries && forall x :: x in old(entries) && x.active ==> x in entries
      ensures ElsewhereBut(old(View()), View(), {})
    {
      hide ValidBut, Monitored.Ok;
      Put(m, i, pending);
    }

    /** A new profiler takes the first free slot or a new one. */
    method Create(ghost pending: set<Monitored>)
      requires ValidBut(pending)
      modifies this`entries, this`repr, this`known
      ensures ValidBut(pending) && fresh(repr - old(repr)) && times == old(times) && ticks == old(ticks)
      ensures ElsewhereBut(old(View()), View(), {})
      ensures forall m :: m in old(entries) && m.active ==> m in entries
      ensures exists m :: m in entries && fresh(m) && m.active && m.calls == 0 && m.nanos == 0 && m.since == |times|
    {
      hide Regular, Monitored.Ok, ElsewhereBut, View;
      var m := new Monitored(size, |times|);
      var i := FirstFree();
      PutSeen(m, i, pending);
    }

    method Deactivate(i: nat, ghost pending: set<Monitored>)
      requires ValidBut(pending) && i < |entries|
      modifies repr
      ensures ValidBut(pending) && fresh(repr - old(repr)) && times == old(times) && ticks == old(ticks)
      ensures ElsewhereBut(old(View()), View(), {})
    {
      hide Regular, Monitored.Ok;
      assert entries[i] in known;
      entries[i].Drop(Seen(entries[i], pending));
    }

    method Count(i: nat, calls: nat, nanos: nat, ghost pending: set<Monitored>)
      requires ValidBut(pending) && i < |entries|
      modifies repr
      ensures ValidBut(pending) && fresh(repr - old(repr)) && times == old(times) && ticks == old(ticks)
      ensures ElsewhereBut(old(View()), View(), {})
    {
      hide Regular, Monitored.Ok;
      assert entries[i] in known;
      entries[i].Count(calls, nanos, Seen(entries[i], pending));
    }

    lemma {:induction false} NothingYet()
      ensures ElsewhereBut(View(), View(), {})
    {
    }

    method Step(ghost pending: set<Monitored>)
      requires ValidBut(pending)
      modifies this`entries, this`repr, this`known, repr
      ensures ValidBut(pending) && fresh(repr - old(repr)) && times == old(times) && ticks == old(ticks)
      ensures ElsewhereBut(old(View()), View(), {})
    {
      hide ValidBut, ElsewhereBut, View;
      NothingYet();
      var create, deactivate: bool := *, *;
      var i: nat, calls: nat, nanos: nat :| true;
      if create {
        Create(pending);
      } else if i < |entries| && deactivate {
        Deactivate(i, pending);
      } else if i < |entries| {
        Count(i, calls, nanos, pending);
      }
    }

    /** Whatever the probes and the handler do meanwhile. */
    method Meanwhile(ghost pending: set<Monitored>)
      requires ValidBut(pending)
      modifies this`entries, this`repr, this`known, repr
      ensures ValidBut(pending) && fresh(repr - old(repr)) && times == old(times) && ticks == old(ticks)
      ensures ElsewhereBut(old(View()), View(), {})
    {
      hide ValidBut, ElsewhereBut, View;
      ghost var was := View();
      NothingYet();
      var steps: nat :| true;
      for k := 0 to steps
        invariant ValidBut(pending) && fresh(repr - old(repr)) && times == old(times) && ticks == old(ticks)
        invariant ElsewhereBut(was, View(), {})
      {
        ghost var v := View();
        Step(pending);
        ElsewhereTwice(was, v, View(), {});
      }
    }

    // ----- the collector -----

    /** A pass starts: everybody in the list waits for a snapshot. */
    ghost method Begin(timestamp: int)
      requires ValidBut({}) && (times != [] ==> timestamp == times[|times| - 1] + tick)
      modifies this`times
      ensures times == old(times) + [timestamp] && ValidBut(Members(entries)) && View() == old(View())
    {
      hide Regular, Monitored.Ok;
      RegularMore(times, tick, timestamp);
      ghost var before := times;
      times := times + [timestamp];
      assert times[..|times| - 1] == before;
      forall m | m in known ensures m.Ok(Seen(m, Members(entries))) {
        assert m.Ok(before);
        if m !in entries {
          m.OkMore(before, timestamp);
        }
      }
    }

    /** Takes the snapshot of the tick of a profiler that was seen active. */
    method Take(m: Monitored, timestamp: int, missed: bool, ghost pending: set<Monitored>)
      requires ValidBut(pending) && m in pending && m in known && timestamp == times[|times| - 1]
      requires m.since + |m.ring.history| == |times| - 1
      modifies m.ring, m.ring.buffer
      ensures ValidBut(pending - {m})
      ensures m.ring.history == old(m.ring.history) + [if missed then Again(old(m.ring.history), timestamp)
                                                       else Snapshot(timestamp, m.calls, m.nanos)]
      ensures forall x :: x in known && x != m ==> x.ring.history == old(x.ring.history)
    {
      hide Regular, Monitored.Ok;
      ghost var before := times[..|times| - 1];
      assert before + [timestamp] == times && m.Ok(before);
      if missed {
        m.Repeat(timestamp, before);
      } else {
        m.Sample(timestamp, before);
      }
      forall x | x in known ensures x.Ok(Seen(x, pending - {m})) {
        if x != m {
          assert Seen(x, pending - {m}) == Seen(x, pending) && x.Ok(Seen(x, pending));
        }
      }
    }

    method TakeSeen(m: Monitored, timestamp: int, missed: bool, ghost pending: set<Monitored>)
      requires ValidBut(pending) && m in pending && m in known && timestamp == times[|times| - 1]
      requires m.since + |m.ring.history| == |times| - 1
      modifies m.ring, m.ring.buffer
      ensures ValidBut(pending - {m}) && View() == old(View())[m := TakenLook(old(View())[m], timestamp, missed)]
    {
      hide ValidBut;
      Take(m, timestamp, missed, pending);
    }

    lemma {:induction false} Skip(m: Monitored, pending: set<Monitored>)
      requires ValidBut(pending) && m in pending && !m.active
      ensures ValidBut(pending - {m})
    {
      hide Regular, Monitored.Ok;
      var before := times[..|times| - 1];
      assert before + [times[|times| - 1]] == times;
      m.OkMore(before, times[|times| - 1]);
    }

    /** One profiler's turn: it is looked at, and a snapshot taken if it was active,
        while the others go on. */
    method Turn(m: Monitored, timestamp: int, missed: bool, ghost pending: set<Monitored>)
      requires ValidBut(pending) && m in pending && m in known && timestamp == times[|times| - 1]
      modifies this`entries, this`repr, this`known, repr
      ensures ValidBut(pending - {m}) && fresh(repr - old(repr)) && times == old(times) && ticks == old(ticks)
      ensures m in View() && ElsewhereBut(old(View()), View(), {m})
      ensures Passed(old(View())[m], View()[m], timestamp, missed)
    {
      hide ValidBut, View, ElsewhereBut, Passed, TakenLook;
      ghost var was := View();
      InView(m);
      InRepr(m, pending);
      var active := m.active;
      if active {
        ReadyToTake(m, pending);
      }
      Meanwhile(pending);
      ghost var v := View();
      StillKnown(was, m, {});
      StillSame(was, m);
      TurnPasses(was, v, m, timestamp, missed);
      InView(m);
      if active {
        TakeSeen(m, timestamp, missed, pending);
      } else {
        Skip(m, pending);
      }
    }

    lemma {:induction false} InView(m: Monitored)
      requires m in known
      ensures m in View() && View()[m] == Look(m.active, m.calls, m.nanos, m.ring.history)
    {
    }

    lemma {:induction false} StillSame(v: Looks, m: Monitored)
      requires m in v && ElsewhereBut(v, View(), {})
      ensures m in known && m.ring.history == v[m].history && (m.active ==> v[m].active)
    {
    }

    lemma {:induction false} ReadyToTake(m: Monitored, pending: set<Monitored>)
      requires ValidBut(pending) && m in pending && m.active
      ensures m.since + |m.ring.history| == |times| - 1
    {
    }

    lemma {:induction false} InRepr(m: Monitored, pending: set<Monitored>)
      requires ValidBut(pending) && m in known
      ensures m.ring in repr && m.ring.buffer in repr
    {
    }

    lemma {:induction false} OneLeft(list: seq<Monitored>, i: nat)
      requires i < |list| && Unrepeated(list)
      ensures Members(list[i..]) - {list[i]} == Members(list[i + 1..]) && list[i] in Members(list[i..])
      ensures list[i] !in list[..i]
    {
    }

    /** The turn of the profiler at place `i` of the list. */
    method TurnAt(list: seq<Monitored>, i: nat, timestamp: int, missed: bool, ghost was: Looks)
      requires i < |list| && ValidBut(Members(list[i..])) && times != [] && timestamp == times[|times| - 1]
      requires Unrepeated(list)
      requires list[i] in was && PassAt(was, View(), list, i, timestamp, missed)
      modifies this`entries, this`repr, this`known, repr
      ensures ValidBut(Members(list[i + 1..])) && fresh(repr - old(repr)) && times == old(times) && ticks == old(ticks)
      ensures PassAt(was, View(), list, i + 1, timestamp, missed)
    {
      hide ValidBut, View, ElsewhereBut, Passed;
      ghost var v := View();
      OneLeft(list, i);
      StillKnown(was, list[i], Members(list[..i]));
      Turn(list[i], timestamp, missed, Members(list[i..]));
      PassOn(was, v, View(), list, i, timestamp, missed);
    }

    /** The pass over the list as it was when the pass started. */
    method Pass(timestamp: int, missed: bool)
      requires ValidBut(Members(entries)) && times != [] && timestamp == times[|times| - 1]
      modifies this`entries, this`repr, this`known, repr
      ensures ValidBut({}) && fresh(repr - old(repr)) && times == old(times) && ticks == old(ticks)
      ensures PassAt(old(View()), View(), old(entries), |old(entries)|, timestamp, missed)
    {
      var list := entries;
      ghost var was := View();
      PassBegins(timestamp, missed);
      hide ValidBut, View, PassAt, Members, Unrepeated;
      for i := 0 to |list|
        invariant ValidBut(Members(list[i..])) && fresh(repr - old(repr)) && times == old(times) && ticks == old(ticks)
        invariant PassAt(was, View(), list, i, timestamp, missed)
      {
        TurnAt(list, i, timestamp, missed, was);
      }
      assert list[|list|..] == [];
      NoMembers();
    }

    lemma {:induction false} PassBegins(timestamp: int, missed: bool)
      requires ValidBut(Members(entries))
      ensures entries[0..] == entries && PassAt(View(), View(), entries, 0, timestamp, missed)
      ensures forall m :: m in entries ==> m in View()
      ensures Unrepeated(entries)
    {
    }

    lemma {:induction false} StillKnown(v: Looks, m: Monitored, but: set<Monitored>)
      requires m in v && ElsewhereBut(v, View(), but)
      ensures m in known && m in View()
    {
    }

    /** One tick: samples, or repeats when the tick was missed. Whatever was in the list
        when it started has its snapshot if it is still active; nothing else has a new one. */
    method RunTick(timestamp: int, missed: bool)
      requires Valid() && (times != [] ==> timestamp == times[|times| - 1] + tick)
      modifies this`entries, this`repr, this`known, this`times, this`ticks, repr
      ensures Valid() && fresh(repr - old(repr)) && times == old(times) + [timestamp]
      ensures ticks == old(ticks) + [Tick(timestamp, missed, old(View()), View())]
      ensures ElsewhereBut(old(View()), View(), Members(old(entries)))
      ensures forall m :: m in old(entries) ==>
                m in old(View()) && m in View() && Passed(old(View())[m], View()[m], timestamp, missed)
    {
      hide ValidBut, ElsewhereBut, Passed, View, Told;
      ghost var list, was := entries, View();
      Begin(timestamp);
      Pass(timestamp, missed);
      assert list[..|list|] == list;
      forall m | m in list ensures m in was && m in View() && Passed(was[m], View()[m], timestamp, missed) {
        var j :| 0 <= j < |list| && list[j] == m;
        StillKnown(was, m, Members(list));
      }
      ghost var before := ticks;
      ThisApart();
      ticks := ticks + [Tick(timestamp, missed, was, View())];
      TickTold(list, was, before);
    }

    /** The snapshots of the last tick tell the truth about it, and the others still do. */
    lemma {:induction false} TickTold(list: seq<Monitored>, was: Looks, before: seq<Tick>)
      requires ValidBut({}) && times != [] && |ticks| == |times| && |before| == |ticks| - 1
      requires ticks[|ticks| - 1].time == times[|times| - 1] && Told(was, before)
      requires ticks == before + [Tick(times[|times| - 1], ticks[|ticks| - 1].missed, was, View())]
      requires ElsewhereBut(was, View(), Members(list))
      requires forall m :: m in list ==>
                 m in was && m in View() &&
                 Passed(was[m], View()[m], times[|times| - 1], ticks[|ticks| - 1].missed)
      ensures Told(View(), ticks)
    {
      hide Told, ElsewhereBut, Passed, TellsTruth, Regular, Monitored.Rising;
      var now, t := View(), ticks[|ticks| - 1];
      forall m | m in now ensures TellsTruth(ticks, m, now[m].history) {
        KnownOk(m);
        TruthPassed(before, t, list, m, times, tick);
      }
      EachTold(now, ticks);
    }

    method Idle()
      requires Valid()
      modifies this`entries, this`repr, this`known, repr
      ensures Valid() && fresh(repr - old(repr)) && times == old(times) && ticks == old(ticks)
    {
      hide ValidBut, View, ElsewhereBut, Told;
      ghost var was := View();
      Meanwhile({});
      ToldElsewhere(was, View(), ticks);
    }

    lemma {:induction false} LastTick()
      requires Valid()
      ensures |times| == |ticks| && (ticks != [] ==> ticks[|ticks| - 1].time == times[|times| - 1])
    {
    }

    /** One tick that fits the clock, and whatever goes on until the next reading. */
    method NextTick(timestamp: int, missed: bool, clock: seq<int>, c: nat, ghost at: seq<nat>)
      returns (ghost at': seq<nat>)
      requires Valid() && clock != [] && FollowsClock(clock, at, ticks, tick)
      requires Fits(clock, at, ticks, tick, timestamp, missed, c)
      modifies this`entries, this`repr, this`known, this`times, this`ticks, repr
      ensures Valid() && fresh(repr - old(repr)) && FollowsClock(clock, at', ticks, tick)
      ensures at' == at + [c] && |ticks| == |old(ticks)| + 1 && ticks[|ticks| - 1].time == timestamp
    {
      hide Valid, View, ElsewhereBut, Passed, FollowsClock;
      LastTick();
      ghost var before := ticks;
      RunTick(timestamp, missed);
      FollowsOn(clock, at, before, tick, ticks[|ticks| - 1], c);
      at' := at + [c];
      Idle();
    }

    /** Missed ticks are repeated until the clock is caught up with. */
    method CatchUp(clock: seq<int>, next: int, c0: nat, ghost at0: seq<nat>)
      returns (nextTick: int, c: nat, ghost at: seq<nat>)
      requires Valid() && 0 < c0 <= |clock| && UpTo(clock, at0, ticks, tick, next, c0)
      modifies this`entries, this`repr, this`known, this`times, this`ticks, repr
      ensures Valid() && fresh(repr - old(repr)) && c0 < c <= |clock| + 1 && |ticks| >= |old(ticks)|
      ensures UpTo(clock, at, ticks, tick, nextTick, c - 1)
      ensures !PastDue(clock, c - 1, nextTick)
    {
      hide Valid, View, ElsewhereBut, Passed, FollowsClock;
      nextTick, c, at := next, c0 + 1, at0;
      var behind := c0 < |clock| && nextTick <= clock[c0];
      while behind
        invariant Valid() && fresh(repr - old(repr)) && c0 < c <= |clock| + 1 && |ticks| >= |old(ticks)|
        invariant UpTo(clock, at, ticks, tick, nextTick, c - 1)
        invariant behind <==> PastDue(clock, c - 1, nextTick)
        decreases |clock| + 1 - c
      {
        at := NextTick(nextTick, true, clock, c, at);
        nextTick := nextTick + tick;
        behind := c < |clock| && nextTick <= clock[c];
        c := c + 1;
      }
    }

    /** One turn of the loop: waits for the tick, takes it, and catches up. */
    method Cycle(clock: seq<int>, next: int, c0: nat, ghost at0: seq<nat>)
      returns (nextTick: int, c: nat, ghost at: seq<nat>)
      requires Valid() && 0 < c0 < |clock| && AtTop(clock, at0, ticks, tick, next, c0)
      modifies this`entries, this`repr, this`known, this`times, this`ticks, repr
      ensures Valid() && fresh(repr - old(repr)) && c0 < c <= |clock| + 1 && ticks != []
      ensures AtTop(clock, at, ticks, tick, nextTick, c)
    {
      hide Valid, FollowsClock, AtTop, UpTo, Fits, PastDue;
      TopFits(clock, at0, ticks, tick, next, c0);
      var sleepMs := next - clock[c0];
      c := c0 + 1;
      if sleepMs > 0 {
        Idle();
      }
      at := NextTick(next, false, clock, c, at0);
      TickTaken(clock, at0, ticks, tick, next, c);
      nextTick, c, at := CatchUp(clock, next + tick, c, at);
      CaughtUp(clock, at, ticks, tick, nextTick, c);
    }

    /** `collect`, for any readings of the clock, in the order they are made; the
        thread is interrupted when they run out, and not before. */
    method Collect(clock: seq<int>) returns (ghost at: seq<nat>)
      requires Valid() && ticks == []
      modifies this`entries, this`repr, this`known, this`times, this`ticks, repr
      ensures Valid() && fresh(repr - old(repr)) && (ticks == [] <==> |clock| < 2)
      ensures clock != [] ==> FollowsClock(clock, at, ticks, tick)
      ensures ticks != [] ==> |at| == |ticks| && at[|at| - 1] + 1 >= |clock|
    {
      at := [];
      if clock == [] {
        return;
      }
      hide Valid, FollowsClock, AtTop;
      var nextTick, c := clock[0] + tick, 1;
      AtStart(clock, tick);
      while c < |clock|
        invariant Valid() && fresh(repr - old(repr)) && 0 < c <= |clock| + 1
        invariant AtTop(clock, at, ticks, tick, nextTick, c)
        invariant if ticks == [] then c == 1 else |clock| >= 2
        decreases |clock| + 1 - c
      {
        nextTick, c, at := Cycle(clock, nextTick, c, at);
      }
      AtEnd(clock, at, ticks, tick, nextTick, c);
    }
  }
}
