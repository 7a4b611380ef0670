/**
 Profiler statistics on the wire: the runtime sizes a buffer in one pass over
 the active profilers and fills it in another; the client walks over it.
 */
module StatsListing {
  import opened Prelude
  import opened Bytes
  import opened SnapshotRing
  import opened Wire

  datatype Probe = Probe(id: nat, name: seq<byte>, snapshots: seq<Snapshot>)

  datatype Stats = Stats(tick: nat, probes: seq<Probe>)

  predicate Long(x: int) { -0x8000_0000_0000_0000 <= x < 0x8000_0000_0000_0000 }

  predicate SnapshotOk(s: Snapshot) { Long(s.timestamp) && Long(s.callCount) && Long(s.totalNanos) }

  /** What the types of the fields allow; the length of a name is not limited. */
  predicate ProbeOk(p: Probe) {
    p.id < 0x1_0000_0000_0000_0000 && |p.snapshots| <= MAX_U32 && forall s :: s in p.snapshots ==> SnapshotOk(s)
  }

  // ----- bytes -----

  function EncodeSnapshot(s: Snapshot): (r: seq<byte>)
    requires SnapshotOk(s)
    ensures |r| == 24
  {
    L8(Unsigned(s.timestamp)) + (L8(Unsigned(s.callCount)) + L8(Unsigned(s.totalNanos)))
  }

  function EncodeSnapshots(ss: seq<Snapshot>): (r: seq<byte>)
    requires forall s :: s in ss ==> SnapshotOk(s)
    ensures |r| == 24 * |ss|
  {
    if ss == [] then [] else EncodeSnapshot(ss[0]) + EncodeSnapshots(ss[1..])
  }

  /** The length goes out in sixteen bits, whatever it is. */
  function EncodeProbe(p: Probe): (r: seq<byte>)
    requires ProbeOk(p)
    ensures |r| == 14 + |p.name| + 24 * |p.snapshots|
  {
    L8(p.id) + ((L2(|p.name| % 0x1_0000) + p.name) + (L4(|p.snapshots|) + EncodeSnapshots(p.snapshots)))
  }

  function EncodeProbes(ps: seq<Probe>): seq<byte>
    requires forall p :: p in ps ==> ProbeOk(p)
  {
    if ps == [] then [] else EncodeProbe(ps[0]) + EncodeProbes(ps[1..])
  }

  predicate StatsOk(s: Stats) { s.tick <= MAX_U32 && |s.probes| <= MAX_U32 && forall p :: p in s.probes ==> ProbeOk(p) }

  function EncodeStats(s: Stats): seq<byte>
    requires StatsOk(s)
  {
    (L4(|s.probes|) + L4(s.tick)) + EncodeProbes(s.probes)
  }

  // ----- the client's reading -----

  function SnapshotsFrom(data: seq<byte>, pos: nat, count: nat,
                         before: seq<Snapshot>): (r: Option<(seq<Snapshot>, nat)>)
    decreases count
  {
    if count == 0 then Some((before, pos))
    else if pos + 24 > |data| then None
    else
      var s := Snapshot(Signed(L8At(data, pos)), Signed(L8At(data, pos + 8)), Signed(L8At(data, pos + 16)));
      SnapshotsFrom(data, pos + 24, count - 1, before + [s])
  }

  function ProbeAt(data: seq<byte>, pos: nat): Option<(Probe, nat)> {
    if pos + 8 > |data| then None
    else
      var name := PStrAt(data, pos + 8);
      if name.None? || name.value.1 + 4 > |data| then None
      else
        var snapshots := SnapshotsFrom(data, name.value.1 + 4, L4At(data, name.value.1), []);
        if snapshots.None? then None
        else Some((Probe(L8At(data, pos), name.value.0, snapshots.value.0), snapshots.value.1))
  }

  function ProbesFrom(data: seq<byte>, pos: nat, count: nat, before: seq<Probe>): Option<seq<Probe>>
    decreases count
  {
    if count == 0 then Some(before)
    else
      var next := ProbeAt(data, pos);
      if next.None? then None else ProbesFrom(data, next.value.1, count - 1, before + [next.value.0])
  }

  function ParseStats(body: seq<byte>): Option<Stats> {
    if |body| < 8 then None
    else
      match ProbesFrom(body, 8, L4At(body, 0), [])
      case None => None
      case Some(probes) => Some(Stats(L4At(body, 4), probes))
  }

  lemma {:induction false} ReadsSnapshot(data: seq<byte>, pos: nat, s: Snapshot)
    requires SnapshotOk(s) && At(data, pos, EncodeSnapshot(s))
    ensures pos + 24 <= |data|
    ensures s == Snapshot(Signed(L8At(data, pos)), Signed(L8At(data, pos + 8)), Signed(L8At(data, pos + 16)))
  {
    hide At, L8;
    var a, b, c := Unsigned(s.timestamp), Unsigned(s.callCount), Unsigned(s.totalNanos);
    AtSplit(data, pos, L8(a), L8(b) + L8(c));
    AtSplit(data, pos + 8, L8(b), L8(c));
    ReadsL8(data, pos, a);
    ReadsL8(data, pos + 8, b);
    ReadsL8(data, pos + 16, c);
    SignedUnsigned(s.timestamp);
    SignedUnsigned(s.callCount);
    SignedUnsigned(s.totalNanos);
  }

  lemma {:induction false} ReadsSnapshots(data: seq<byte>, pos: nat, ss: seq<Snapshot>, before: seq<Snapshot>)
    requires (forall s :: s in ss ==> SnapshotOk(s)) && At(data, pos, EncodeSnapshots(ss))
    ensures SnapshotsFrom(data, pos, |ss|, before) == Some((before + ss, pos + 24 * |ss|))
    decreases |ss|
  {
    hide At, EncodeSnapshot, Signed, L8At;
    if ss == [] {
      assert before + ss == before;
    } else {
      assert ss[0] in ss;
      AtSplit(data, pos, EncodeSnapshot(ss[0]), EncodeSnapshots(ss[1..]));
      ReadsSnapshot(data, pos, ss[0]);
      ReadsSnapshots(data, pos + 24, ss[1..], before + [ss[0]]);
      assert before + [ss[0]] + ss[1..] == before + ss;
    }
  }

  lemma {:induction false} ReadsProbe(data: seq<byte>, pos: nat, p: Probe)
    requires ProbeOk(p) && |p.name| <= MAX_U16 && At(data, pos, EncodeProbe(p))
    ensures ProbeAt(data, pos) == Some((p, pos + |EncodeProbe(p)|))
  {
    hide At, L8, L4, L2, EncodeSnapshots, SnapshotsFrom, PStrAt;
    var snaps := L4(|p.snapshots|) + EncodeSnapshots(p.snapshots);
    assert L2(|p.name| % 0x1_0000) + p.name == PStr(p.name);
    AtSplit(data, pos, L8(p.id), PStr(p.name) + snaps);
    AtSplit(data, pos + 8, PStr(p.name), snaps);
    var next := pos + 10 + |p.name|;
    AtSplit(data, next, L4(|p.snapshots|), EncodeSnapshots(p.snapshots));
    ReadsL8(data, pos, p.id);
    ReadsPStr(data, pos + 8, p.name);
    ReadsL4(data, next, |p.snapshots|);
    ReadsSnapshots(data, next + 4, p.snapshots, []);
    assert [] + p.snapshots == p.snapshots;
  }

  lemma {:induction false} ReadsProbes(data: seq<byte>, pos: nat, ps: seq<Probe>, before: seq<Probe>)
    requires (forall p :: p in ps ==> ProbeOk(p) && |p.name| <= MAX_U16) && At(data, pos, EncodeProbes(ps))
    ensures ProbesFrom(data, pos, |ps|, before) == Some(before + ps)
    decreases |ps|
  {
    hide At, EncodeProbe, ProbeAt;
    if ps == [] {
      assert before + ps == before;
    } else {
      assert ps[0] in ps;
      AtSplit(data, pos, EncodeProbe(ps[0]), EncodeProbes(ps[1..]));
      ReadsProbe(data, pos, ps[0]);
      ReadsProbes(data, pos + |EncodeProbe(ps[0])|, ps[1..], before + [ps[0]]);
      assert before + [ps[0]] + ps[1..] == before + ps;
    }
  }

  /** Names read are never longer than sixteen bits can say. */
  lemma {:induction false} ReadNamesAreShort(data: seq<byte>, pos: nat, count: nat, before: seq<Probe>)
    requires forall p :: p in before ==> |p.name| <= MAX_U16
    ensures ProbesFrom(data, pos, count, before).Some? ==>
              forall p :: p in ProbesFrom(data, pos, count, before).value ==> |p.name| <= MAX_U16
    decreases count
  {
    hide SnapshotsFrom;
    if count == 0 || ProbeAt(data, pos).None? {
    } else {
      var next := ProbeAt(data, pos).value;
      ReadNamesAreShort(data, next.1, count - 1, before + [next.0]);
    }
  }

  /** The client gets the statistics back if and only if no name is longer than
      65535 bytes: longer ones go out with a length cut to sixteen bits. */
  lemma {:induction false} StatsRoundTripIff(s: Stats)
    requires StatsOk(s)
    ensures ParseStats(EncodeStats(s)) == Some(s) <==> forall p :: p in s.probes ==> |p.name| <= 65535
  {
    hide EncodeProbes, ProbesFrom, L4;
    var body := EncodeStats(s);
    AtSplit(body, 0, L4(|s.probes|) + L4(s.tick), EncodeProbes(s.probes));
    AtSplit(body, 0, L4(|s.probes|), L4(s.tick));
    assert At(body, 0, body);
    ReadsL4(body, 0, |s.probes|);
    ReadsL4(body, 4, s.tick);
    ReadNamesAreShort(body, 8, |s.probes|, []);
    if forall p :: p in s.probes ==> |p.name| <= MAX_U16 {
      ReadsProbes(body, 8, s.probes, []);
      assert [] + s.probes == s.probes;
    }
  }

  // ----- the runtime's two passes -----

  lemma {:induction false} EncodeProbesSnoc(ps: seq<Probe>, p: Probe)
    requires (forall x :: x in ps ==> ProbeOk(x)) && ProbeOk(p)
    ensures (forall x :: x in ps + [p] ==> ProbeOk(x)) && EncodeProbes(ps + [p]) == EncodeProbes(ps) + EncodeProbe(p)
    decreases |ps|
  {
    hide EncodeProbe;
    if ps == [] {
      assert ps + [p] == [p] && [p][1..] == [];
      assert EncodeProbes([p]) == EncodeProbe(p) + EncodeProbes([]);
    } else {
      assert (ps + [p])[0] == ps[0] && (ps + [p])[1..] == ps[1..] + [p];
      EncodeProbesSnoc(ps[1..], p);
    }
  }

  lemma {:induction false} EncodeSnapshotsSnoc(ss: seq<Snapshot>, s: Snapshot)
    requires (forall x :: x in ss ==> SnapshotOk(x)) && SnapshotOk(s)
    ensures (forall x :: x in ss + [s] ==> SnapshotOk(x)) &&
            EncodeSnapshots(ss + [s]) == EncodeSnapshots(ss) + EncodeSnapshot(s)
    decreases |ss|
  {
    hide EncodeSnapshot;
    if ss == [] {
      assert ss + [s] == [s] && [s][1..] == [];
      assert EncodeSnapshots([s]) == EncodeSnapshot(s) + EncodeSnapshots([]);
    } else {
      assert (ss + [s])[0] == ss[0] && (ss + [s])[1..] == ss[1..] + [s];
      EncodeSnapshotsSnoc(ss[1..], s);
    }
  }

  /** What is encoded so far is no longer than the whole. */
  lemma {:induction false} ProbesRoom(ps: seq<Probe>, k: nat)
    requires k <= |ps| && forall p :: p in ps ==> ProbeOk(p)
    ensures (forall p :: p in ps[..k] ==> ProbeOk(p)) && |EncodeProbes(ps[..k])| <= |EncodeProbes(ps)|
    decreases |ps| - k
  {
    hide EncodeProbe, EncodeProbes;
    if k == |ps| {
      assert ps[..k] == ps;
    } else {
      TakeMore(ps, k);
      ProbesRoom(ps, k + 1);
      EncodeProbesSnoc(ps[..k], ps[k]);
    }
  }

  datatype Tracked = Tracked(active: bool, probe: Probe)

  function Active(all: seq<Tracked>): seq<Probe> {
    if all == [] then []
    else Active(all[..|all| - 1]) + if all[|all| - 1].active then [all[|all| - 1].probe] else []
  }

  /** The first loop of `getStats`. */
  method CollectActive(all: seq<Tracked>) returns (ps: seq<Probe>)
    ensures ps == Active(all)
  {
    ps := [];
    for i := 0 to |all|
      invariant ps == Active(all[..i])
    {
      assert all[..i + 1][..i] == all[..i];
      if all[i].active {
        ps := ps + [all[i].probe];
      }
    }
    assert all[..|all|] == all;
  }

  /** Addition of Java `int`s: 32 bits, wrapping around. */
  function Wrapped(x: int): int { (x + 0x8000_0000) % 0x1_0000_0000 - 0x8000_0000 }

  lemma {:induction false} WrappedOnce(a: int, b: int)
    ensures Wrapped(Wrapped(a) + b) == Wrapped(a + b)
  {
    var q := (a + 0x8000_0000) / 0x1_0000_0000;
    assert Wrapped(a) == a - q * 0x1_0000_0000;
    ModShift(a + b + 0x8000_0000, q);
  }

  lemma {:induction false} ModShift(x: int, q: int)
    ensures (x - q * 0x1_0000_0000) % 0x1_0000_0000 == x % 0x1_0000_0000
  {
    var n := x / 0x1_0000_0000;
    assert x - q * 0x1_0000_0000 == (n - q) * 0x1_0000_0000 + x % 0x1_0000_0000;
  }

  lemma {:induction false} WrappedIsLess(x: nat)
    ensures Wrapped(x) <= x && (Wrapped(x) == x <==> x < 0x8000_0000)
  {
  }

  /** The rest of `getStats`, over the active profilers. It throws, and there is no
      answer, exactly when the statistics take 2^31 bytes or more: then the size that
      was added up has wrapped around, and the buffer cannot be made or does not hold them. */
  method GetStats(s: Stats) returns (body: Option<seq<byte>>)
    requires StatsOk(s)
    ensures body.Some? <==> 8 + |EncodeProbes(s.probes)| < 0x8000_0000
    ensures body.Some? ==> body.value == EncodeStats(s)
  {
    hide EncodeProbe, EncodeProbes, Wrapped;
    var size := TotalSize(s.probes);
    WrappedIsLess(8 + |EncodeProbes(s.probes)|);
    if size < 8 {
      return None;
    }
    var w := new Writer(size);
    w.Put(L4(|s.probes|));
    w.Put(L4(s.tick));
    ghost var head := L4(|s.probes|) + L4(s.tick);
    assert [] + L4(|s.probes|) + L4(s.tick) == head;
    assert s.probes[..0] == [];
    EncodeNone();
    assert head + [] == head;
    for i := 0 to |s.probes|
      invariant w.Valid() && (forall p :: p in s.probes[..i] ==> ProbeOk(p))
      invariant w.p == 8 + |EncodeProbes(s.probes[..i])| && w.Written() == head + EncodeProbes(s.probes[..i])
      invariant fresh(w) && fresh(w.buf)
    {
      TakeMore(s.probes, i);
      EncodeProbesSnoc(s.probes[..i], s.probes[i]);
      ProbesRoom(s.probes, i + 1);
      if w.p + |EncodeProbe(s.probes[i])| > w.buf.Length {
        return None;
      }
      PutProbe(s.probes[i], w);
      Join(head, EncodeProbes(s.probes[..i]), EncodeProbe(s.probes[i]));
    }
    assert s.probes[..|s.probes|] == s.probes;
    assert w.p == w.buf.Length;
    body := Some(w.buf[..]);
  }

  lemma {:induction false} EncodeNone()
    ensures EncodeProbes([]) == []
  {
  }

  method TotalSize(ps: seq<Probe>) returns (size: int)
    requires forall p :: p in ps ==> ProbeOk(p)
    ensures size == Wrapped(8 + |EncodeProbes(ps)|)
  {
    hide EncodeProbe, EncodeProbes, Wrapped;
    size := 8;
    WrappedIsLess(8);
    assert ps[..0] == [];
    EncodeNone();
    for i := 0 to |ps|
      invariant (forall p :: p in ps[..i] ==> ProbeOk(p)) && size == Wrapped(8 + |EncodeProbes(ps[..i])|)
    {
      TakeMore(ps, i);
      EncodeProbesSnoc(ps[..i], ps[i]);
      var more := 8 + 2 + |ps[i].name| + 4 + |ps[i].snapshots| * 24;
      WrappedOnce(8 + |EncodeProbes(ps[..i])|, more);
      size := Wrapped(size + more);
    }
    assert ps[..|ps|] == ps;
  }

  method PutProbe(p: Probe, w: Writer)
    requires ProbeOk(p) && w.Valid() && w.p + |EncodeProbe(p)| <= w.buf.Length
    modifies w, w.buf
    ensures w.Valid() && w.Written() == old(w.Written()) + EncodeProbe(p) && w.p == old(w.p) + |EncodeProbe(p)|
  {
    hide Writer.Written, EncodeSnapshots, L8, L4, L2;
    ghost var before := w.Written();
    w.Put(L8(p.id));
    w.Put(L2(|p.name| % 0x1_0000) + p.name);
    w.Put(L4(|p.snapshots|));
    PutSnapshots(p.snapshots, w);
    Regroup(before, L8(p.id), L2(|p.name| % 0x1_0000) + p.name, L4(|p.snapshots|), EncodeSnapshots(p.snapshots));
  }

  lemma {:induction false} Regroup(s: seq<byte>, a: seq<byte>, b: seq<byte>, c: seq<byte>, d: seq<byte>)
    ensures s + a + b + c + d == s + (a + (b + (c + d)))
  {
  }

  lemma {:induction false} NoSnapshots()
    ensures EncodeSnapshots([]) == []
  {
  }

  method PutSnapshots(ss: seq<Snapshot>, w: Writer)
    requires (forall s :: s in ss ==> SnapshotOk(s)) && w.Valid() && w.p + 24 * |ss| <= w.buf.Length
    modifies w, w.buf
    ensures w.Valid() && w.Written() == old(w.Written()) + EncodeSnapshots(ss) && w.p == old(w.p) + 24 * |ss|
  {
    hide Writer.Written, L8, Unsigned, EncodeSnapshots;
    ghost var before := w.Written();
    NoSnapshots();
    assert ss[..0] == [] && before + [] == before;
    for i := 0 to |ss|
      invariant w.Valid() && (forall s :: s in ss[..i] ==> SnapshotOk(s)) && w.p == old(w.p) + 24 * i
      invariant w.Written() == before + EncodeSnapshots(ss[..i])
    {
      TakeMore(ss, i);
      EncodeSnapshotsSnoc(ss[..i], ss[i]);
      w.Put(L8(Unsigned(ss[i].timestamp)) + (L8(Unsigned(ss[i].callCount)) + L8(Unsigned(ss[i].totalNanos))));
      Join(before, EncodeSnapshots(ss[..i]), EncodeSnapshot(ss[i]));
    }
    assert ss[..|ss|] == ss;
  }

  /** `_parse_stats` */
  method ReadStats(body: seq<byte>) returns (r: Option<Stats>)
    ensures r == ParseStats(body)
  {
    hide SnapshotsFrom, PStrAt;
    if |body| < 8 {
      return None;
    }
    var count, tick, result := L4At(body, 0), L4At(body, 4), [];
    var offset: nat := 8;
    for i := 0 to count
      invariant ProbesFrom(body, offset, count - i, result) == ProbesFrom(body, 8, count, [])
    {
      if offset + 8 > |body| {
        return None;
      }
      var id := L8At(body, offset);
      var name := PStrAt(body, offset + 8);
      if name.None? || name.value.1 + 4 > |body| {
        return None;
      }
      var snapCount := L4At(body, name.value.1);
      var snapshots := ReadSnapshots(body, name.value.1 + 4, snapCount);
      if snapshots.None? {
        return None;
      }
      result, offset := result + [Probe(id, name.value.0, snapshots.value.0)], snapshots.value.1;
    }
    r := Some(Stats(tick, result));
  }

  method ReadSnapshots(body: seq<byte>, start: nat, count: nat) returns (r: Option<(seq<Snapshot>, nat)>)
    ensures r == SnapshotsFrom(body, start, count, [])
  {
    hide Signed, L8At;
    var offset, snapshots := start, [];
    for i := 0 to count
      invariant offset >= 0 && SnapshotsFrom(body, offset, count - i, snapshots) ==
                SnapshotsFrom(body, start, count, [])
    {
      if offset + 24 > |body| {
        return None;
      }
      var s := Snapshot(Signed(L8At(body, offset)), Signed(L8At(body, offset + 8)), Signed(L8At(body, offset + 16)));
      snapshots, offset := snapshots + [s], offset + 24;
    }
    r := Some((snapshots, offset));
  }

  // ----- from the registry to the client -----

  /** The profilers before `k` that are active. */
  function ActiveBefore(all: seq<Tracked>, k: nat): set<nat>
    requires k <= |all|
  {
    set j: nat | j < k && all[j].active
  }

  lemma {:induction false} ActiveGrows(all: seq<Tracked>, k: nat)
    requires k < |all|
    ensures ActiveBefore(all, k + 1) == ActiveBefore(all, k) + if all[k].active then {k} else {}
    ensures k !in ActiveBefore(all, k) && ActiveBefore(all, 0) == {}
  {
  }

  lemma {:induction false} ActiveSnoc(all: seq<Tracked>, k: nat)
    requires k < |all|
    ensures Active(all[..k + 1]) == Active(all[..k]) + if all[k].active then [all[k].probe] else []
  {
    assert all[..k + 1][..k] == all[..k];
  }

  lemma {:induction false} ActiveCount(all: seq<Tracked>, n: nat)
    requires n <= |all|
    ensures |Active(all[..n])| == |ActiveBefore(all, n)|
  {
    hide Active, ActiveBefore;
    if n == 0 {
      NoneActive(all);
    } else {
      ActiveCount(all, n - 1);
      ActiveSnoc(all, n - 1);
      ActiveGrows(all, n - 1);
    }
  }

  lemma {:induction false} NoneActive(all: seq<Tracked>)
    ensures Active(all[..0]) == [] && ActiveBefore(all, 0) == {}
  {
  }

  /** Each active one is reported, at the place its order gives it. */
  lemma {:induction false} ActiveAt(all: seq<Tracked>, n: nat, k: nat)
    requires k < n <= |all| && all[k].active
    ensures var ps := Active(all[..n]);
            |ActiveBefore(all, k)| < |ps| && ps[|ActiveBefore(all, k)|] == all[k].probe
    decreases n
  {
    hide Active, ActiveBefore;
    ActiveSnoc(all, n - 1);
    if k == n - 1 {
      ActiveCount(all, k);
    } else {
      ActiveAt(all, n - 1, k);
    }
  }

  lemma {:induction false} ActiveFrom(all: seq<Tracked>, p: Probe) returns (k: nat)
    requires p in Active(all)
    ensures k < |all| && all[k].active && all[k].probe == p
    decreases |all|
  {
    var n := |all| - 1;
    if p in Active(all[..n]) {
      k := ActiveFrom(all[..n], p);
    } else {
      k := n;
    }
  }

  lemma {:induction false} FewerActive(all: seq<Tracked>)
    ensures |Active(all)| <= |all|
    decreases |all|
  {
    if all == [] {
    } else {
      FewerActive(all[..|all| - 1]);
    }
  }

  /** What the fields' types allow, for the active ones, is all that is needed. */
  lemma {:induction false} ActiveOk(tick: nat, all: seq<Tracked>)
    requires tick <= 0xFFFF_FFFF && |all| <= 0xFFFF_FFFF
    requires forall t :: t in all ==>
               t.probe.id <= 0xFFFF_FFFF_FFFF_FFFF && |t.probe.snapshots| <= 0xFFFF_FFFF
    requires forall t, s :: t in all && s in t.probe.snapshots ==> SnapshotOk(s)
    ensures StatsOk(Stats(tick, Active(all)))
  {
    hide SnapshotOk;
    FewerActive(all);
    forall p | p in Active(all) ensures ProbeOk(p) {
      var k := ActiveFrom(all, p);
      assert all[k] in all;
    }
  }

  /** What the client reads is the tick and exactly the active profilers, in order. */
  lemma {:induction false} ClientSeesActive(tick: nat, all: seq<Tracked>) returns (s: Stats)
    requires tick <= 0xFFFF_FFFF && |all| <= 0xFFFF_FFFF
    requires forall t :: t in all ==>
               && t.probe.id <= 0xFFFF_FFFF_FFFF_FFFF && |t.probe.name| <= 65535
               && |t.probe.snapshots| <= 0xFFFF_FFFF
    requires forall t, s :: t in all && s in t.probe.snapshots ==>
               && -0x8000_0000_0000_0000 <= s.timestamp < 0x8000_0000_0000_0000
               && -0x8000_0000_0000_0000 <= s.callCount < 0x8000_0000_0000_0000
               && -0x8000_0000_0000_0000 <= s.totalNanos < 0x8000_0000_0000_0000
    ensures StatsOk(Stats(tick, Active(all)))
    ensures ParseStats(EncodeStats(Stats(tick, Active(all)))) == Some(s)
    ensures s.tick == tick && |s.probes| == |ActiveBefore(all, |all|)|
    ensures forall k: nat :: k < |all| && all[k].active ==>
              |ActiveBefore(all, k)| < |s.probes| && s.probes[|ActiveBefore(all, k)|] == all[k].probe
  {
    hide EncodeStats, ParseStats, Active, ActiveBefore;
    s := Stats(tick, Active(all));
    ActiveOk(tick, all);
    forall p | p in Active(all) ensures |p.name| <= MAX_U16 {
      var k := ActiveFrom(all, p);
      assert all[k] in all;
    }
    StatsRoundTripIff(s);
    assert all[..|all|] == all;
    ActiveCount(all, |all|);
    forall k: nat | k < |all| && all[k].active
      ensures |ActiveBefore(all, k)| < |s.probes| && s.probes[|ActiveBefore(all, k)|] == all[k].probe
    {
      ActiveAt(all, |all|, k);
    }
  }
}
