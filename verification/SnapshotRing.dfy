/**
 The snapshots of one profiler: a ring buffer of any size, and its ordered
 read-out.
 */
module SnapshotRing {
  import opened Prelude

  /** Counters, cumulative, as of a time in milliseconds. */
  datatype Snapshot = Snapshot(timestamp: int, callCount: int, totalNanos: int)

  /** The last `n` elements, or all when there are fewer. */
  function Last<T>(s: seq<T>, n: nat): seq<T> { if |s| <= n then s else s[|s| - n..] }

  ghost predicate InOrder(s: seq<Snapshot>) { forall i, j :: 0 <= i < j < |s| ==> s[i].timestamp <= s[j].timestamp }

  ghost predicate StrictlyInOrder(s: seq<Snapshot>) {
    forall i, j :: 0 <= i < j < |s| ==> s[i].timestamp < s[j].timestamp
  }

  // ----- sorting by timestamp -----

  lemma {:induction false} SameFirst(s: seq<Snapshot>, t: seq<Snapshot>)
    requires InOrder(s) && StrictlyInOrder(t) && s != [] && t != [] && t[0] in s && s[0] in t
    ensures s[0] == t[0]
  {
    var i :| 0 <= i < |t| && t[i] == s[0];
    var j :| 0 <= j < |s| && s[j] == t[0];
  }

  lemma {:induction false} RestInOrder(s: seq<Snapshot>)
    requires s != []
    ensures InOrder(s) ==> InOrder(s[1..])
    ensures StrictlyInOrder(s) ==> StrictlyInOrder(s[1..])
  {
  }

  lemma {:induction false} WithoutFirst(s: seq<Snapshot>)
    requires s != []
    ensures multiset(s[1..]) == multiset(s) - multiset{s[0]}
  {
    assert s == [s[0]] + s[1..];
  }

  lemma {:induction false} SameContents(s: seq<Snapshot>, t: seq<Snapshot>)
    requires multiset(s) == multiset(t)
    ensures |s| == |t| && forall x :: x in s <==> x in t
  {
    assert |s| == |multiset(s)| == |multiset(t)| == |t|;
    assert forall x :: x in s <==> x in multiset(s);
  }

  /** Two orders of the same snapshots agree when the timestamps are distinct. */
  lemma {:induction false} OneOrder(s: seq<Snapshot>, t: seq<Snapshot>)
    requires InOrder(s) && StrictlyInOrder(t) && multiset(s) == multiset(t)
    ensures s == t
    decreases |s|
  {
    hide InOrder, StrictlyInOrder;
    SameContents(s, t);
    if s == [] {
    } else {
      assert s[0] in s && t[0] in t;
      SameFirst(s, t);
      WithoutFirst(s);
      WithoutFirst(t);
      RestInOrder(s);
      RestInOrder(t);
      OneOrder(s[1..], t[1..]);
      assert s == [s[0]] + s[1..] && t == [t[0]] + t[1..];
    }
  }

  method InsertSorted(s: seq<Snapshot>, x: Snapshot) returns (r: seq<Snapshot>)
    requires InOrder(s)
    ensures InOrder(r) && multiset(r) == multiset(s) + multiset{x}
  {
    hide InOrder;
    var p := |s|;
    while p > 0 && s[p - 1].timestamp > x.timestamp
      invariant 0 <= p <= |s| && forall k :: p <= k < |s| ==> s[k].timestamp > x.timestamp
    {
      p := p - 1;
    }
    r := s[..p] + [x] + s[p..];
    InsertedInOrder(s, x, p);
    Inserted(s, x, p);
  }

  lemma {:induction false} Inserted(s: seq<Snapshot>, x: Snapshot, p: nat)
    requires p <= |s|
    ensures multiset(s[..p] + [x] + s[p..]) == multiset(s) + multiset{x}
  {
    assert s == s[..p] + s[p..];
  }

  lemma {:induction false} InsertedInOrder(s: seq<Snapshot>, x: Snapshot, p: nat)
    requires InOrder(s) && p <= |s| && (p > 0 ==> s[p - 1].timestamp <= x.timestamp)
    requires forall k :: p <= k < |s| ==> s[k].timestamp > x.timestamp
    ensures InOrder(s[..p] + [x] + s[p..])
  {
    var r := s[..p] + [x] + s[p..];
    assert forall i :: 0 <= i < |r| ==> r[i] == if i < p then s[i] else if i == p then x else s[i - 1];
  }

  /** What the library sort promises. */
  method SortByTime(s: seq<Snapshot>) returns (r: seq<Snapshot>)
    ensures InOrder(r) && multiset(r) == multiset(s)
  {
    r := [];
    for i := 0 to |s|
      invariant InOrder(r) && multiset(r) == multiset(s[..i])
    {
      assert s[..i + 1] == s[..i] + [s[i]];
      r := InsertSorted(r, s[i]);
    }
    assert s[..|s|] == s;
  }

  lemma {:induction false} LastInOrder(s: seq<Snapshot>, n: nat)
    requires StrictlyInOrder(s)
    ensures StrictlyInOrder(Last(s, n))
  {
  }

  // ----- the ring -----

  function Present(s: seq<Option<Snapshot>>): seq<Snapshot> {
    if s == [] then []
    else Present(s[..|s| - 1]) + if s[|s| - 1].Some? then [s[|s| - 1].value] else []
  }

  lemma {:induction false} PresentAll(s: seq<Option<Snapshot>>, t: seq<Snapshot>)
    requires |t| <= |s| && (forall i :: 0 <= i < |t| ==> s[i] == Some(t[i])) &&
             forall i :: |t| <= i < |s| ==> s[i] == None
    ensures Present(s) == t
    decreases |s|
  {
    if s == [] {
    } else {
      var n := |s| - 1;
      if |t| == |s| {
        PresentAll(s[..n], t[..n]);
        assert t == t[..n] + [t[n]];
      } else {
        PresentAll(s[..n], t);
      }
    }
  }

  class ProfilerEntry {
    const buffer: array<Option<Snapshot>>
    var head: nat
    /** Every snapshot ever recorded. */
    ghost var history: seq<Snapshot>
    /** How many of them were recorded before `head` last came round to zero. */
    ghost var lapped: nat

    ghost predicate Valid()
      reads this, buffer
    {
      && head < buffer.Length && |history| == lapped + head && (lapped == 0 || lapped >= buffer.Length)
      && (forall i :: 0 <= i < head ==> buffer[i] == Some(history[lapped + i]))
      && (forall i :: head <= i < buffer.Length ==>
            buffer[i] == if lapped == 0 then None else Some(history[lapped - buffer.Length + i]))
    }

    constructor (size: nat)
      requires size > 0
      ensures Valid() && history == [] && buffer.Length == size && fresh(buffer)
    {
      buffer := new Option<Snapshot>[size](_ => None);
      head, history, lapped := 0, [], 0;
    }

    method Put(s: Snapshot)
      requires Valid()
      modifies this, buffer
      ensures Valid() && history == old(history) + [s]
    {
      buffer[head] := Some(s);
      history := history + [s];
      NextHead(head, buffer.Length);
      if head + 1 == buffer.Length {
        lapped := lapped + buffer.Length;
      }
      head := (head + 1) % buffer.Length;
    }

    /** Samples the counters. */
    method Record(timestamp: int, callCount: int, totalNanos: int)
      requires Valid()
      modifies this, buffer
      ensures Valid() && history == old(history) + [Snapshot(timestamp, callCount, totalNanos)]
    {
      Put(Snapshot(timestamp, callCount, totalNanos));
    }

    /** Repeats the previous counts, or zeros, under a new timestamp. */
    method RecordZero(timestamp: int)
      requires Valid()
      modifies this, buffer
      ensures Valid()
      ensures history == old(history) + [if old(history) == [] then Snapshot(timestamp, 0, 0)
                                         else old(history)[|old(history)| - 1].(timestamp := timestamp)]
    {
      PreviousHead(head, buffer.Length);
      var last := buffer[(head - 1 + buffer.Length) % buffer.Length];
      var calls := if last.Some? then last.value.callCount else 0;
      var nanos := if last.Some? then last.value.totalNanos else 0;
      Put(Snapshot(timestamp, calls, nanos));
    }

    /** The snapshots in the buffer, as they lie in it. */
    method Collect() returns (found: seq<Snapshot>)
      requires Valid()
      ensures found == Present(buffer[..])
    {
      found := [];
      for i := 0 to buffer.Length
        invariant found == Present(buffer[..i])
      {
        assert buffer[..i + 1][..i] == buffer[..i];
        if buffer[i].Some? {
          found := found + [buffer[i].value];
        }
      }
      assert buffer[..buffer.Length] == buffer[..];
    }

    /** The buffer holds the last snapshots, rotated. */
    lemma {:induction false} BufferIsRotated()
      requires Valid()
      ensures multiset(Present(buffer[..])) == multiset(Last(history, buffer.Length))
    {
      var n, kept := buffer.Length, Last(history, buffer.Length);
      if lapped == 0 {
        PresentAll(buffer[..], history);
      } else {
        var newer, older := history[lapped..], history[|history| - n..lapped];
        assert kept == older + newer;
        assert |newer| == head && |older| == n - head;
        PresentAll(buffer[..], newer + older);
        assert multiset(newer + older) == multiset(older + newer);
      }
    }

    /** The last snapshots that fit, oldest first, for a ring of any size. */
    method OrderedSnapshots() returns (r: seq<Snapshot>)
      requires Valid()
      ensures InOrder(r) && multiset(r) == multiset(Last(history, buffer.Length))
      ensures StrictlyInOrder(history) ==> r == Last(history, buffer.Length)
    {
      hide InOrder, StrictlyInOrder, Present;
      var found := Collect();
      BufferIsRotated();
      r := SortByTime(found);
      if StrictlyInOrder(history) {
        LastInOrder(history, buffer.Length);
        hide Last;
        OneOrder(r, Last(history, buffer.Length));
      }
    }
  }

  lemma {:induction false} NextHead(head: nat, n: nat)
    requires head < n
    ensures (head + 1) % n == if head + 1 == n then 0 else head + 1
  {
  }

  lemma {:induction false} PreviousHead(head: nat, n: nat)
    requires head < n
    ensures (head - 1 + n) % n == if head == 0 then n - 1 else head - 1
  {
    if head > 0 {
      var k := head - 1;
      assert (k + n) % n == k by {
        var q := (k + n) / n;
        assert k + n == q * n + (k + n) % n;
      }
    }
  }
}
