/**
 Taking instruments away: `Retire` removes them from every part at once and
 keeps the rest in agreement, and what the handler actually does (dropping a
 queue item, the first record for a signature, the first record on a line,
 a slot) amounts to `Retire`.
 */
module RetireLemmas {
  import opened Prelude
  import opened HandlerState
  import opened HandlerLemmas

  // ----- dropping by number -----

  lemma {:induction false} DropIn<T>(s: seq<T>, f: T -> Id, ids: set<Id>)
    ensures forall x :: x in Drop(s, f, ids) <==> x in s && f(x) !in ids
    decreases |s|
  {
    if s == [] {
    } else {
      DropIn(s[..|s| - 1], f, ids);
      assert s == s[..|s| - 1] + [s[|s| - 1]];
    }
  }

  lemma {:induction false} DropNone<T>(s: seq<T>, f: T -> Id, ids: set<Id>)
    requires forall x :: x in s ==> f(x) !in ids
    ensures Drop(s, f, ids) == s
    decreases |s|
  {
    if s == [] {
    } else {
      DropNone(s[..|s| - 1], f, ids);
      assert s[|s| - 1] in s && s == s[..|s| - 1] + [s[|s| - 1]];
    }
  }

  lemma {:induction false} DropAll<T>(s: seq<T>, f: T -> Id, ids: set<Id>)
    requires forall x :: x in s ==> f(x) in ids
    ensures Drop(s, f, ids) == []
    decreases |s|
  {
    if s == [] {
    } else {
      DropAll(s[..|s| - 1], f, ids);
      assert s[|s| - 1] in s;
    }
  }

  lemma {:induction false} DropSnoc<T>(s: seq<T>, x: T, f: T -> Id, ids: set<Id>)
    ensures Drop(s + [x], f, ids) == Drop(s, f, ids) + if f(x) in ids then [] else [x]
  {
    assert (s + [x])[..|s|] == s;
  }

  /** An element that would be dropped anyway may go first. */
  lemma {:induction false} DropWithout<T>(s: seq<T>, f: T -> Id, ids: set<Id>, p: nat)
    requires p < |s| && f(s[p]) in ids
    ensures Drop(Without(s, p), f, ids) == Drop(s, f, ids)
    decreases |s|
  {
    var n := |s| - 1;
    if p == n {
      assert Without(s, p) == s[..n];
    } else {
      DropWithout(s[..n], f, ids, p);
      assert Without(s, p) == Without(s[..n], p) + [s[n]];
      DropSnoc(Without(s[..n], p), s[n], f, ids);
    }
  }

  lemma {:induction false} DropIndex<T>(s: seq<T>, f: T -> Id, ids: set<Id>, i: nat) returns (a: nat)
    requires i < |Drop(s, f, ids)|
    ensures a < |s| && s[a] == Drop(s, f, ids)[i]
    decreases |s|
  {
    var n := |s| - 1;
    if i < |Drop(s[..n], f, ids)| {
      a := DropIndex(s[..n], f, ids, i);
    } else {
      a := n;
    }
  }

  /** What is left keeps its order. */
  lemma {:induction false} DropOrder<T>(s: seq<T>, f: T -> Id, ids: set<Id>, i: nat, j: nat) returns (a: nat, b: nat)
    requires i < j < |Drop(s, f, ids)|
    ensures a < b < |s| && s[a] == Drop(s, f, ids)[i] && s[b] == Drop(s, f, ids)[j]
    decreases |s|
  {
    var n := |s| - 1;
    var rest := Drop(s[..n], f, ids);
    if j < |rest| {
      a, b := DropOrder(s[..n], f, ids, i, j);
    } else {
      a := DropIndex(s[..n], f, ids, i);
      b := n;
    }
  }

  lemma {:induction false} DropTwice<T>(s: seq<T>, f: T -> Id, x: set<Id>, y: set<Id>)
    ensures Drop(Drop(s, f, x), f, y) == Drop(s, f, x + y)
    decreases |s|
  {
    if s == [] {
    } else {
      var n := |s| - 1;
      DropTwice(s[..n], f, x, y);
      var before := Drop(s[..n], f, x);
      if f(s[n]) in x {
        assert Drop(s, f, x) == before;
      } else {
        DropSnoc(before, s[n], f, y);
      }
    }
  }

  // ----- `Retire` keeps the parts in agreement -----

  lemma {:induction false} RetireQueue(reg: Registry, q: seq<Item>, loaded: set<string>, loading: Option<string>,
                                       ids: set<Id>)
    requires QueueOk(reg, q, loaded, loading) && DeferredAreQueued(reg, q)
    ensures QueueOk(reg - ids, Drop(q, ItemId, ids), loaded, loading)
    ensures DeferredAreQueued(reg - ids, Drop(q, ItemId, ids))
  {
    var reg', d := reg - ids, Drop(q, ItemId, ids);
    DropIn(q, ItemId, ids);
    forall it | it in d ensures ItemOk(reg', loaded, it, loading) {
      assert ItemOk(reg, loaded, it, loading);
    }
    forall i, j | 0 <= i < j < |d| ensures !SameTask(d[i], d[j]) {
      var a, b := DropOrder(q, ItemId, ids, i, j);
    }
    forall x | MethodAt(reg', x) && reg'[x].deferred ensures HasMethodItem(d, x) {
      assert MethodAt(reg, x) && HasMethodItem(q, x);
      var it :| it in q && it.id == x && it.MethodItem?;
      assert it in d;
    }
    forall x, side: Side | LineAt(reg', x) && reg'[x].Waiting(side) ensures HasLineItem(d, x, side) {
      assert LineAt(reg, x) && HasLineItem(q, x, side);
      var it :| it in q && it.id == x && it.LineItem? && it.side == side;
      assert it in d;
    }
  }

  lemma {:induction false} RetireMethods(reg: Registry, ms: Methods, ms': Methods, ids: set<Id>)
    requires MethodsOk(reg, ms) && OnePerMethod(reg)
    requires ms' == map c | c in ms :: Drop(ms[c], MethodRecId, ids)
    ensures MethodsOk(reg - ids, ms') && OnePerMethod(reg - ids)
  {
    var reg' := reg - ids;
    forall c, r | c in ms' && r in ms'[c] ensures r.id in reg' && reg'[r.id] == MethodEntry(c, r.sig, false) {
      DropIn(ms[c], MethodRecId, ids);
      assert r in ms[c];
    }
    forall c, p, q | c in ms' && 0 <= p < q < |ms'[c]| ensures ms'[c][p].id != ms'[c][q].id {
      var a, b := DropOrder(ms[c], MethodRecId, ids, p, q);
    }
    forall x | MethodAt(reg', x) && !reg'[x].deferred ensures HasMethodRec(ms', reg'[x].cls, x) {
      assert MethodAt(reg, x) && HasMethodRec(ms, reg[x].cls, x);
      DropIn(ms[reg[x].cls], MethodRecId, ids);
    }
    assert forall x :: MethodAt(reg', x) ==> MethodAt(reg, x);
  }

  lemma {:induction false} RetireBase(s: State, ids: set<Id>, loading: Option<string>)
    requires Base(s, loading)
    ensures Base(Retire(s, ids), loading)
  {
    hide Drop, QueueOk, MethodsOk;
    var s' := Retire(s, ids);
    RetireQueue(s.registry, s.queue, s.methods.Keys, loading, ids);
    RetireMethods(s.registry, s.methods, s'.methods, ids);
    DropIn(s.queue, ItemId, ids);
    assert s'.methods.Keys == s.methods.Keys && s'.lines.Keys == s.lines.Keys;
    assert LineClassesOk(s'.registry, s'.methods.Keys) by {
      assert forall x :: LineAt(s'.registry, x) ==> LineAt(s.registry, x);
    }
    forall c, r | c in s'.lines && r in s'.lines[c] ensures r in s.lines[c] {
      DropIn(s.lines[c], LineRecId, ids);
    }
    forall c, r | c in s'.methods && r in s'.methods[c] ensures r in s.methods[c] {
      DropIn(s.methods[c], MethodRecId, ids);
    }
  }

  lemma {:induction false} RetireLines(reg: Registry, ls: Lines, ls': Lines, ids: set<Id>)
    requires LinesOk(reg, ls) && DistinctLines(reg)
    requires ls' == map c | c in ls :: Drop(ls[c], LineRecId, ids)
    ensures LinesOk(reg - ids, ls') && DistinctLines(reg - ids)
  {
    var reg' := reg - ids;
    forall c, r | c in ls' && r in ls'[c] ensures LineRecOk(reg', c, r) {
      DropIn(ls[c], LineRecId, ids);
      assert LineRecOk(reg, c, r);
    }
    forall c | c in ls' ensures OneRecPerSide(ls'[c]) {
      assert OneRecPerSide(ls[c]);
      forall p, q | 0 <= p < q < |ls'[c]| ensures !(ls'[c][p].id == ls'[c][q].id && ls'[c][p].side == ls'[c][q].side) {
        var a, b := DropOrder(ls[c], LineRecId, ids, p, q);
      }
    }
    forall x, side: Side | LineAt(reg', x) && reg'[x].Ready() ensures HasLineRec(ls', reg'[x].ClassOf(side), x, side) {
      assert LineAt(reg, x) && HasLineRec(ls, reg[x].ClassOf(side), x, side);
      DropIn(ls[reg[x].ClassOf(side)], LineRecId, ids);
    }
    assert forall x :: LineAt(reg', x) ==> LineAt(reg, x);
  }

  lemma {:induction false} RetireOwns(slots: seq<Slot>, ids: set<Id>)
    ensures forall i, id :: Owns(RetireSlots(slots, ids), i, id) <==> Owns(slots, i, id) && id !in ids
  {
  }

  lemma {:induction false} RetireSlotsOk(live: set<Id>, slots: seq<Slot>, ids: set<Id>)
    requires SlotsOk(live, slots)
    ensures SlotsOk(live - ids, RetireSlots(slots, ids))
  {
    var slots' := RetireSlots(slots, ids);
    RetireOwns(slots, ids);
    forall id | id in live - ids ensures HasSlot(slots', id) {
      assert HasSlot(slots, id);
      var i :| Owns(slots, i, id);
      assert Owns(slots', i, id);
    }
  }

  lemma {:induction false} RetireFull(s: State, ids: set<Id>)
    requires Full(s)
    ensures Full(Retire(s, ids))
  {
    hide Drop;
    var s' := Retire(s, ids);
    RetireLines(s.registry, s.lines, s'.lines, ids);
    RetireSlotsOk(s.registry.Keys, s.slots, ids);
    assert s'.registry.Keys == s.registry.Keys - ids;
    RetireOwns(s.slots, ids);
    DropIn(s.queue, ItemId, ids);
    forall c, r | c in s'.methods && r in s'.methods[c] ensures r in s.methods[c] && r.id !in ids {
      DropIn(s.methods[c], MethodRecId, ids);
    }
    forall c, r | c in s'.lines && r in s'.lines[c] ensures r in s.lines[c] && r.id !in ids {
      DropIn(s.lines[c], LineRecId, ids);
    }
  }

  lemma {:induction false} RetireKeeps(s: State, ids: set<Id>, distinct: bool, loading: Option<string>)
    requires Inv(s, distinct, loading)
    ensures Inv(Retire(s, ids), distinct, loading)
  {
    RetireBase(s, ids, loading);
    if distinct {
      RetireFull(s, ids);
    }
  }

  lemma {:induction false} NotQueuedNotMethod(s: State, id: Id, loading: Option<string>)
    requires Base(s, loading) && (id in s.registry ==> s.registry[id].Ready())
    ensures Retire(s, {id}).queue == s.queue && Retire(s, {id}).methods == s.methods
  {
    hide Drop, DeferredAreQueued, OnePerMethod, LineClassesOk, LineRecsKnown, MethodsInstalled, OneSlotEach;
    forall it | it in s.queue ensures it.id != id {
      assert ItemOk(s.registry, s.methods.Keys, it, loading);
    }
    DropNone(s.queue, ItemId, {id});
    forall c | c in s.methods ensures Drop(s.methods[c], MethodRecId, {id}) == s.methods[c] {
      forall r | r in s.methods[c] ensures r.id != id {
        assert s.registry[r.id] == MethodEntry(c, r.sig, false);
      }
      DropNone(s.methods[c], MethodRecId, {id});
    }
  }

  // ----- what the handler does is `Retire` -----

  /** The first record for an applied method's signature is its own. */
  lemma {:induction false} SigFindsOwn(s: State, id: Id, loading: Option<string>)
    requires Base(s, loading) && MethodAt(s.registry, id) && !s.registry[id].deferred
    ensures var e := s.registry[id];
            && e.cls in s.methods && FindSig(s.methods[e.cls], e.sig) < |s.methods[e.cls]|
            && s.methods[e.cls][FindSig(s.methods[e.cls], e.sig)].id == id
  {
    var e := s.registry[id];
    assert HasMethodRec(s.methods, e.cls, id);
    var ms := s.methods[e.cls];
    var r :| r in ms && r.id == id;
    assert s.registry[r.id] == MethodEntry(e.cls, r.sig, false);
    var p := FindSig(ms, e.sig);
    assert p < |ms| by {
      var q :| 0 <= q < |ms| && ms[q] == r;
    }
    var found := ms[p];
    assert found in ms && s.registry[found.id] == MethodEntry(e.cls, found.sig, false);
    assert MethodAt(s.registry, found.id);
  }

  lemma {:induction false} DropOwnRecord(ms: seq<MethodRec>, p: nat)
    requires p < |ms| && forall i, j :: 0 <= i < j < |ms| ==> ms[i].id != ms[j].id
    ensures Drop(ms, MethodRecId, {ms[p].id}) == Without(ms, p)
  {
    var w, id := Without(ms, p), ms[p].id;
    DropWithout(ms, MethodRecId, {id}, p);
    forall x | x in w ensures x.id != id {
      var q :| 0 <= q < |w| && w[q] == x;
    }
    DropNone(w, MethodRecId, {id});
  }

  /** Dropping the first record for a method's signature drops its record. */
  lemma {:induction false} DropSigIsRetire(s: State, id: Id, loading: Option<string>)
    requires Base(s, loading) && MethodAt(s.registry, id) && !s.registry[id].deferred
    ensures s.registry[id].cls in s.methods
    ensures Retire(s, {id}).methods ==
            s.methods[s.registry[id].cls := DropSig(s.methods[s.registry[id].cls], s.registry[id].sig)]
    ensures Retire(s, {id}).lines == s.lines && Retire(s, {id}).queue == s.queue
  {
    var e := s.registry[id];
    SigFindsOwn(s, id, loading);
    DropOwnRecord(s.methods[e.cls], FindSig(s.methods[e.cls], e.sig));
    MethodOnly(s, id, loading);
  }

  /** A method instrument has no queue item once applied, no line record, and
      records in its own class only. */
  lemma {:induction false} MethodOnly(s: State, id: Id, loading: Option<string>)
    requires Base(s, loading) && MethodAt(s.registry, id)
    ensures Retire(s, {id}).lines == s.lines
    ensures !s.registry[id].deferred ==> Retire(s, {id}).queue == s.queue
    ensures forall c :: c in s.methods && (s.registry[id].deferred || c != s.registry[id].cls) ==>
              Retire(s, {id}).methods[c] == s.methods[c]
  {
    hide Drop;
    forall c | c in s.lines ensures Drop(s.lines[c], LineRecId, {id}) == s.lines[c] {
      DropNone(s.lines[c], LineRecId, {id});
    }
    if !s.registry[id].deferred {
      forall it | it in s.queue ensures it.id != id {
        assert ItemOk(s.registry, s.methods.Keys, it, loading);
      }
      DropNone(s.queue, ItemId, {id});
    }
    forall c | c in s.methods && (s.registry[id].deferred || c != s.registry[id].cls)
      ensures Drop(s.methods[c], MethodRecId, {id}) == s.methods[c]
    {
      DropNone(s.methods[c], MethodRecId, {id});
    }
  }

  /** Only the owner's slot is active, so freeing it is all there is to do. */
  lemma {:induction false} FreeIsRetire(live: set<Id>, slots: seq<Slot>, i: int, id: Id)
    requires SlotsOk(live, slots) && Owns(slots, i, id)
    ensures Freed(slots, i) == RetireSlots(slots, {id})
  {
    forall j | 0 <= j < |slots| && slots[j].id == id && j != i ensures !slots[j].active {
      assert Owns(slots, i, id) && (slots[j].active ==> Owns(slots, j, id));
    }
  }

  /** Dropping the first queue item of an instrument, and for a line the next
      one too, drops them all. */
  lemma {:induction false} DropItemsIsRetire(q: seq<Item>, p: nat, id: Id)
    requires p < |q| && q[p].id == id && forall i, j :: 0 <= i < j < |q| ==> !SameTask(q[i], q[j])
    ensures Drop(q, ItemId, {id}) == Drop(Without(q, p), ItemId, {id})
    ensures q[p].MethodItem? ==> Drop(q, ItemId, {id}) == Without(q, p)
    ensures q[p].LineItem? ==> forall k :: 0 <= k < |q| - 1 && Without(q, p)[k].id == id ==>
              Without(q, p)[k].LineItem? && Drop(q, ItemId, {id}) == Without(Without(q, p), k)
    ensures q[p].LineItem? && (forall k :: 0 <= k < |q| - 1 ==> Without(q, p)[k].id != id) ==>
              Drop(q, ItemId, {id}) == Without(q, p)
  {
    hide Drop;
    var w := Without(q, p);
    DropWithout(q, ItemId, {id}, p);
    WithoutTasks(q, p);
    if forall x :: x in w ==> x.id != id {
      DropNone(w, ItemId, {id});
    }
    forall k | 0 <= k < |w| && w[k].id == id
      ensures q[p].LineItem? && w[k].LineItem? && Drop(q, ItemId, {id}) == Without(w, k) {
      assert w[k] in w;
      DropWithout(w, ItemId, {id}, k);
      WithoutTasks(w, k);
      forall x | x in Without(w, k) ensures x.id != id {
        assert x in w;
      }
      DropNone(Without(w, k), ItemId, {id});
    }
  }

  // ----- dropping line records by line number -----

  /** With distinct lines, a record found on one of an instrument's lines is its own. */
  lemma {:induction false} LineFindsOwn(s: State, id: Id, side: Side, r: LineRec)
    requires Full(s) && LineAt(s.registry, id) && s.registry[id].ClassOf(side) in s.lines
    requires r in s.lines[s.registry[id].ClassOf(side)] && r.line == s.registry[id].LineOf(side)
    ensures r.id == id
  {
    var e := s.registry[id];
    assert LineRecOk(s.registry, e.ClassOf(side), r);
    assert LineAt(s.registry, r.id) && s.registry[r.id].ClassOf(r.side) == e.ClassOf(side);
  }

  /** One of an instrument's records sits on the line it is looked for, and is the first there. */
  lemma {:induction false} SideIsFound(s: State, id: Id, side: Side)
    requires Full(s) && LineAt(s.registry, id) && s.registry[id].Ready()
    ensures var e := s.registry[id];
            && e.ClassOf(side) in s.lines
            && FindLine(s.lines[e.ClassOf(side)], e.LineOf(side)) < |s.lines[e.ClassOf(side)]|
            && s.lines[e.ClassOf(side)][FindLine(s.lines[e.ClassOf(side)], e.LineOf(side))].id == id
  {
    var e := s.registry[id];
    assert HasLineRec(s.lines, e.ClassOf(side), id, side);
    var ls := s.lines[e.ClassOf(side)];
    var r :| r in ls && r.id == id && r.side == side;
    assert LineRecOk(s.registry, e.ClassOf(side), r);
    var p := FindLine(ls, e.LineOf(side));
    assert p < |ls| by {
      var q :| 0 <= q < |ls| && ls[q] == r;
    }
    LineFindsOwn(s, id, side, ls[p]);
  }

  /** When the two sides are in different classes, dropping by line number in
      one of them takes exactly the instrument's record there. */
  lemma {:induction false} DropSide(s: State, id: Id, side: Side, other: Side)
    requires Full(s) && LineAt(s.registry, id) && s.registry[id].Ready()
    requires side != other && s.registry[id].ClassOf(side) != s.registry[id].ClassOf(other)
    ensures s.registry[id].ClassOf(side) in s.lines
    ensures DropLine(s.lines[s.registry[id].ClassOf(side)], s.registry[id].LineOf(side)) ==
            Drop(s.lines[s.registry[id].ClassOf(side)], LineRecId, {id})
  {
    hide Drop, Full, FindLine;
    SideIsFound(s, id, side);
    var e := s.registry[id];
    var ls := s.lines[e.ClassOf(side)];
    var p := FindLine(ls, e.LineOf(side));
    DropWithout(ls, LineRecId, {id}, p);
    OneSideHere(s, id, side, other);
    forall x | x in Without(ls, p) ensures x.id != id {
      var k :| 0 <= k < |Without(ls, p)| && Without(ls, p)[k] == x;
      assert x == ls[if k < p then k else k + 1];
    }
    DropNone(Without(ls, p), LineRecId, {id});
  }

  lemma {:induction false} OneSideHere(s: State, id: Id, side: Side, other: Side)
    requires Full(s) && LineAt(s.registry, id) && side != other
    requires s.registry[id].ClassOf(side) != s.registry[id].ClassOf(other) && s.registry[id].ClassOf(side) in s.lines
    ensures var ls := s.lines[s.registry[id].ClassOf(side)];
            forall j, k :: 0 <= j < k < |ls| ==> !(ls[j].id == id && ls[k].id == id)
  {
    hide SlotsOk, DistinctLines, LineSlots, MethodSlots, ItemSlots, LinesInstalled;
    var c := s.registry[id].ClassOf(side);
    var ls := s.lines[c];
    assert OneRecPerSide(ls);
    assert forall k :: 0 <= k < |ls| ==> ls[k] in ls && LineRecOk(s.registry, c, ls[k]);
  }

  /** Within one class the two drops take the instrument's two records, even
      when both are on the same line. */
  lemma {:induction false} DropBothSides(s: State, id: Id)
    requires Full(s) && LineAt(s.registry, id) && s.registry[id].Ready() && s.registry[id].cls == s.registry[id].exitCls
    ensures s.registry[id].cls in s.lines
    ensures DropLine(DropLine(s.lines[s.registry[id].cls], s.registry[id].line), s.registry[id].exitLine) ==
            Drop(s.lines[s.registry[id].cls], LineRecId, {id})
  {
    hide Drop, FindLine, SlotsOk, DistinctLines, LineSlots, MethodSlots, ItemSlots, LinesInstalled, OneRecPerSide;
    SideIsFound(s, id, Enter);
    var e := s.registry[id];
    var ls := s.lines[e.cls];
    var p := FindLine(ls, e.line);
    var w := Without(ls, p);
    assert OneRecPerSide(ls);
    var q := OtherSideIsFound(s.registry, s.lines, id, p);
    LineFindsOwn(s, id, Exit, w[q]);
    DropWithout(ls, LineRecId, {id}, p);
    DropWithout(w, LineRecId, {id}, q);
    NoThirdRecord(ls, id, p, q);
    DropNone(Without(w, q), LineRecId, {id});
  }

  /** With the first of the two gone, the record of the other side is on the exit line. */
  lemma {:induction false} OtherSideIsFound(reg: Registry, lines: Lines, id: Id, p: nat) returns (q: nat)
    requires LinesOk(reg, lines) && LineAt(reg, id) && reg[id].Ready() && reg[id].cls == reg[id].exitCls
    requires reg[id].cls in lines && p == FindLine(lines[reg[id].cls], reg[id].line)
    requires p < |lines[reg[id].cls]| && lines[reg[id].cls][p].id == id
    ensures var w := Without(lines[reg[id].cls], p);
            q == FindLine(w, reg[id].exitLine) && q < |w| && w[q] in lines[reg[id].cls]
  {
    hide FindLine;
    var e := reg[id];
    var ls := lines[e.cls];
    var w := Without(ls, p);
    assert ls[p] in ls && LineRecOk(reg, e.cls, ls[p]);
    var side := if ls[p].side == Enter then Exit else Enter;
    assert HasLineRec(lines, e.ClassOf(side), id, side) && e.ClassOf(side) == e.cls;
    var r :| r in ls && r.id == id && r.side == side;
    assert LineRecOk(reg, e.cls, r);
    var k :| 0 <= k < |ls| && ls[k] == r;
    assert w[if k < p then k else k - 1] == r;
    q := FindLine(w, e.exitLine);
  }

  lemma {:induction false} NoThirdRecord(ls: seq<LineRec>, id: Id, p: nat, q: nat)
    requires OneRecPerSide(ls) && p < |ls| && q < |ls| - 1 && ls[p].id == id && Without(ls, p)[q].id == id
    ensures forall x :: x in Without(Without(ls, p), q) ==> x.id != id
  {
    hide OneRecPerSide;
    var w := Without(ls, p);
    forall x | x in Without(w, q) ensures x.id != id {
      var k :| 0 <= k < |Without(w, q)| && Without(w, q)[k] == x;
      var k1 := if k < q then k else k + 1;
      AtMostTwo(ls, id, if k1 < p then k1 else k1 + 1, if q < p then q else q + 1, p);
    }
  }

  lemma {:induction false} AtMostTwo(ls: seq<LineRec>, id: Id, a: nat, b: nat, c: nat)
    requires OneRecPerSide(ls) && a < |ls| && b < |ls| && c < |ls| && a != b && a != c && b != c
    requires ls[b].id == id && ls[c].id == id
    ensures ls[a].id != id
  {
  }

  /** The two drops a deinstrumented line makes. */
  function DropLines(ls: Lines, e: Entry): (r: Lines)
    requires e.LineEntry? && e.cls in ls && e.exitCls in ls
    ensures r.Keys == ls.Keys
  {
    var l1 := ls[e.cls := DropLine(ls[e.cls], e.line)];
    l1[e.exitCls := DropLine(l1[e.exitCls], e.exitLine)]
  }

  /** With distinct lines, dropping by line number takes the instrument's records and no others. */
  lemma {:induction false} DropLinesIsRetire(s: State, id: Id, loading: Option<string>)
    requires Base(s, loading) && Full(s) && LineAt(s.registry, id) && s.registry[id].Ready()
    ensures s.registry[id].cls in s.lines && s.registry[id].exitCls in s.lines
    ensures DropLines(s.lines, s.registry[id]) == Retire(s, {id}).lines
    ensures Retire(s, {id}).queue == s.queue && Retire(s, {id}).methods == s.methods
  {
    NotQueuedNotMethod(s, id, loading);
    SideIsFound(s, id, Enter);
    SideIsFound(s, id, Exit);
    forall c | c in s.lines ensures DropLines(s.lines, s.registry[id])[c] == Drop(s.lines[c], LineRecId, {id}) {
      DropLinesIn(s, id, c);
    }
    assert DropLines(s.lines, s.registry[id]).Keys == Retire(s, {id}).lines.Keys;
  }

  lemma {:induction false} DropLinesIn(s: State, id: Id, c: string)
    requires Full(s) && LineAt(s.registry, id) && s.registry[id].Ready() && c in s.lines
    requires s.registry[id].cls in s.lines && s.registry[id].exitCls in s.lines
    ensures DropLines(s.lines, s.registry[id])[c] == Drop(s.lines[c], LineRecId, {id})
  {
    hide Full, Drop, DropLine;
    var e := s.registry[id];
    if e.cls == e.exitCls {
      DropBothSides(s, id);
    } else {
      DropSide(s, id, Enter, Exit);
      DropSide(s, id, Exit, Enter);
    }
    ElsewhereUntouched(s, id);
  }

  lemma {:induction false} ElsewhereUntouched(s: State, id: Id)
    requires Full(s) && LineAt(s.registry, id)
    ensures forall c :: c in s.lines && c != s.registry[id].cls && c != s.registry[id].exitCls ==>
              Drop(s.lines[c], LineRecId, {id}) == s.lines[c]
  {
    forall c | c in s.lines && c != s.registry[id].cls && c != s.registry[id].exitCls
      ensures Drop(s.lines[c], LineRecId, {id}) == s.lines[c]
    {
      forall r | r in s.lines[c] ensures r.id != id {
        assert LineRecOk(s.registry, c, r);
      }
      DropNone(s.lines[c], LineRecId, {id});
    }
  }

  /** Without distinct lines the two drops still only drop. */
  lemma {:induction false} DropLinesOnlyDrops(ls: Lines, e: Entry)
    requires e.LineEntry? && e.cls in ls && e.exitCls in ls
    ensures forall c, r {:trigger r in DropLines(ls, e)[c]} :: c in ls && r in DropLines(ls, e)[c] ==> r in ls[c]
  {
    DropLineOnlyDrops(ls[e.cls], e.line);
    var l1 := ls[e.cls := DropLine(ls[e.cls], e.line)];
    DropLineOnlyDrops(l1[e.exitCls], e.exitLine);
  }

  lemma {:induction false} DropLineOnlyDrops(ls: seq<LineRec>, line: int)
    ensures forall r :: r in DropLine(ls, line) ==> r in ls
  {
  }

  /** A record made and then dropped by its line number again leaves the list as
      it was if and only if no other record is on that line. */
  lemma {:induction false} AddThenDropLine(ls: seq<LineRec>, r: LineRec)
    requires r !in ls
    ensures DropLine(ls + [r], r.line) == ls <==> forall x :: x in ls ==> x.line != r.line
  {
    var p := FindLine(ls + [r], r.line);
    if p < |ls| {
      assert ls[p] in ls && ls[p].line == r.line;
      var w := Without(ls + [r], p);
      assert w[|ls| - 1] == r;
    } else {
      assert (ls + [r])[|ls|] == r && p == |ls|;
      assert Without(ls + [r], p) == ls;
      forall x | x in ls ensures x.line != r.line {
        var k :| 0 <= k < |ls| && ls[k] == x;
        assert (ls + [r])[k] == x;
      }
    }
  }

  // ----- new instruments of classes that are loaded already -----

  /** Once nothing waits for the class being loaded, it is a class like any other. */
  lemma {:induction false} NoneWaits(s: State, distinct: bool, name: string)
    requires Inv(s, distinct, Some(name)) && forall it :: it in s.queue ==> it.cls != name
    ensures Inv(s, distinct, None)
  {
    forall it | it in s.queue ensures ItemOk(s.registry, s.methods.Keys, it, None) {
      assert ItemOk(s.registry, s.methods.Keys, it, Some(name));
    }
  }

  lemma {:induction false} MayWait(s: State, distinct: bool, name: string)
    requires Inv(s, distinct, None)
    ensures Inv(s, distinct, Some(name))
  {
    forall it | it in s.queue ensures ItemOk(s.registry, s.methods.Keys, it, Some(name)) {
      assert ItemOk(s.registry, s.methods.Keys, it, None);
    }
  }

  lemma {:induction false} QueuedNotLoaded(s: State)
    requires Base(s, None)
    ensures forall it :: it in s.queue ==> it.cls !in s.methods
  {
    forall it | it in s.queue ensures it.cls !in s.methods {
      assert ItemOk(s.registry, s.methods.Keys, it, None);
    }
  }

  lemma {:induction false} WithoutLast<T>(q: seq<T>, x: T)
    ensures Without(q + [x], |q|) == q && (q + [x])[|q|] == x
  {
  }

  /** A method of a loaded class, instrumented at once. */
  function NewMethodApplied(s: State, cls: string, sig: string, slots: seq<Slot>, slot: nat): State
    requires cls in s.methods && cls in s.lines
  {
    var ms := s.methods[cls] + [MethodRec(sig, slot, s.nextId)];
    s.(registry := s.registry[s.nextId := MethodEntry(cls, sig, false)], nextId := s.nextId + 1,
       methods := s.methods[cls := ms], slots := slots,
       installed := s.installed[cls := Wanted(ms, s.lines[cls])])
  }

  lemma {:induction false} NewMethodAppliedKeeps(s: State, cls: string, sig: string, slots: seq<Slot>, slot: nat,
                                                 distinct: bool)
    requires Inv(s, distinct, None) && cls in s.methods && NewMethod(s.registry, cls, sig)
    requires Created(s.slots, slots, slot, s.nextId)
    ensures Inv(NewMethodApplied(s, cls, sig, slots, slot), distinct, None)
  {
    hide Inv, Wanted;
    var e, item := MethodEntry(cls, sig, true), MethodItem(s.nextId, slot, cls, sig);
    MethodItemsFor(s, cls, sig, slot, Some(cls));
    MayWait(s, distinct, cls);
    AddDeferredKeeps(s, e, [item], slots, slot, distinct, Some(cls));
    var mid := AddDeferred(s, e, [item], slots);
    WithoutLast(s.queue, item);
    SameKeys(s, distinct, None);
    ApplyMethodKeeps(mid, |s.queue|, distinct, Some(cls));
    assert ApplyMethod(mid, |s.queue|) == NewMethodApplied(s, cls, sig, slots, slot);
    NoneWaitsIn(s, distinct, cls);
    NoneWaits(NewMethodApplied(s, cls, sig, slots, slot), distinct, cls);
  }

  lemma {:induction false} SameKeys(s: State, distinct: bool, loading: Option<string>)
    requires Inv(s, distinct, loading)
    ensures s.methods.Keys == s.lines.Keys == s.installed.Keys && s.nextId > 0 && s.nextId !in s.registry
  {
  }

  lemma {:induction false} CreatedIndex(before: seq<Slot>, after: seq<Slot>, i: int, id: Id)
    requires Created(before, after, i, id)
    ensures 0 <= i < |after| && Owns(after, i, id)
  {
  }

  /** A signature no applied method of the class has is not on the class's list. */
  lemma {:induction false} NoSuchRecord(s: State, cls: string, sig: string, distinct: bool, loading: Option<string>)
    requires Inv(s, distinct, loading) && cls in s.methods
    requires forall id :: MethodAt(s.registry, id) && !s.registry[id].deferred ==>
             s.registry[id].cls != cls || s.registry[id].sig != sig
    ensures FindSig(s.methods[cls], sig) == |s.methods[cls]|
  {
    hide FindSig;
    forall r | r in s.methods[cls] ensures r.sig != sig {
      assert MethodAt(s.registry, r.id) && s.registry[r.id] == MethodEntry(cls, r.sig, false);
    }
  }

  lemma {:induction false} NoneWaitsIn(s: State, distinct: bool, cls: string)
    requires Inv(s, distinct, None) && cls in s.methods
    ensures forall it :: it in s.queue ==> it.cls != cls
  {
    QueuedNotLoaded(s);
  }

  lemma {:induction false} MethodItemsFor(s: State, cls: string, sig: string, slot: nat, loading: Option<string>)
    requires NewMethod(s.registry, cls, sig) && (cls in s.methods ==> loading == Some(cls))
    ensures ItemsFor(s, MethodEntry(cls, sig, true), [MethodItem(s.nextId, slot, cls, sig)], slot, loading)
  {
    assert MethodItem(s.nextId, slot, cls, sig) in [MethodItem(s.nextId, slot, cls, sig)];
  }

  /** A line whose two classes are loaded, instrumented at once. */
  function NewLineApplied(s: State, e: Entry, slots: seq<Slot>, slot: nat): State
    requires e.LineEntry? && e.cls in s.methods && e.exitCls in s.methods && s.methods.Keys == s.lines.Keys
  {
    var ls := AddLines(s.lines, e, s.nextId, slot);
    s.(registry := s.registry[s.nextId := e.(enterDeferred := false, exitDeferred := false)], nextId := s.nextId + 1,
       lines := ls, slots := slots,
       installed := Reinstalled(Reinstalled(s.installed, s.methods, ls, e.cls), s.methods, ls, e.exitCls))
  }

  lemma {:induction false} NewLineAppliedKeeps(s: State, e: Entry, slots: seq<Slot>, slot: nat, distinct: bool)
    requires Inv(s, distinct, None) && e.LineEntry? && e.cls in s.methods && e.exitCls in s.methods
    requires e.enterDeferred && e.exitDeferred && Created(s.slots, slots, slot, s.nextId)
    ensures s.methods.Keys == s.lines.Keys
    ensures Inv(NewLineApplied(s, e, slots, slot), distinct && Apart(s.registry, e), None)
  {
    hide Inv, Wanted;
    var e', item := e.(exitDeferred := false), LineItem(s.nextId, slot, e.cls, e.line, Enter);
    EnterItemFor(s, e', slot);
    MayWait(s, distinct, e.cls);
    AddDeferredKeeps(s, e', [item], slots, slot, distinct, Some(e.cls));
    ApartIgnoresFlags(s.registry, e, e');
    var mid := AddDeferred(s, e', [item], slots);
    WithoutLast(s.queue, item);
    SameKeys(s, distinct, None);
    var d := distinct && Apart(s.registry, e);
    ApplyLineKeeps(mid, |s.queue|, d, Some(e.cls));
    assert ApplyLine(mid, |s.queue|) == NewLineApplied(s, e, slots, slot);
    NoneWaitsIn(s, distinct, e.cls);
    NoneWaits(NewLineApplied(s, e, slots, slot), d, e.cls);
  }

  lemma {:induction false} ApartIgnoresFlags(reg: Registry, e: Entry, f: Entry)
    requires e.LineEntry? && f.LineEntry? && f == e.(enterDeferred := f.enterDeferred, exitDeferred := f.exitDeferred)
    ensures Apart(reg, e) <==> Apart(reg, f)
  {
    forall g: Entry | g.LineEntry?
      ensures NoSharedPlace(g, e) <==> NoSharedPlace(g, f)
      ensures NoSharedPlace(e, g) <==> NoSharedPlace(f, g)
    {
      assert forall x: Side :: e.ClassOf(x) == f.ClassOf(x) && e.LineOf(x) == f.LineOf(x);
    }
  }

  lemma {:induction false} EnterItemFor(s: State, e: Entry, slot: nat)
    requires e.LineEntry? && e.cls in s.methods && e.exitCls in s.methods && e.enterDeferred && !e.exitDeferred
    ensures ItemsFor(s, e, [LineItem(s.nextId, slot, e.cls, e.line, Enter)], slot, Some(e.cls))
  {
    var it := LineItem(s.nextId, slot, e.cls, e.line, Enter);
    assert it in [it];
    assert forall side: Side :: e.Waiting(side) ==> side == Enter;
  }
}
