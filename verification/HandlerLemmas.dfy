/**
 Every step of the life cycle keeps the parts in agreement: the invariant of
 `HandlerState` is preserved by each net effect an event can have.
 */
module HandlerLemmas {
  import opened Prelude
  import opened HandlerState

  // ----- slots -----

  /** `ProfilerRegistry.create` gave slot `i` to `id`: an inactive slot, or a new one. */
  predicate Created(before: seq<Slot>, after: seq<Slot>, i: int, id: Id) {
    if 0 <= i < |before| then !before[i].active && after == before[i := Slot(true, id)]
    else i == |before| && after == before + [Slot(true, id)]
  }

  /** The same slots are active and carry the same ids. */
  ghost predicate SameActive(a: seq<Slot>, b: seq<Slot>) { forall i, id :: Owns(a, i, id) <==> Owns(b, i, id) }

  lemma {:induction false} CreatedOwns(before: seq<Slot>, after: seq<Slot>, i: int, id: Id)
    requires Created(before, after, i, id)
    ensures forall j, x :: Owns(after, j, x) <==> (Owns(before, j, x) && j != i) || (j == i && x == id)
    ensures forall j, x :: Owns(before, j, x) ==> Owns(after, j, x)
  {
  }

  /** Creating a slot and giving it back leaves the active slots as they were. */
  lemma {:induction false} CreateThenFree(before: seq<Slot>, after: seq<Slot>, i: int, id: Id)
    requires Created(before, after, i, id)
    ensures SameActive(before, Freed(after, i))
  {
  }

  lemma {:induction false} SameActiveSlots(a: seq<Slot>, b: seq<Slot>)
    requires SameActive(a, b)
    ensures ActiveSlots(a) == ActiveSlots(b)
  {
    assert forall i :: 0 <= i < |a| && a[i].active ==> Owns(a, i, a[i].id);
    assert forall i :: 0 <= i < |b| && b[i].active ==> Owns(b, i, b[i].id);
  }

  lemma {:induction false} SameSlotsOk(live: set<Id>, a: seq<Slot>, b: seq<Slot>)
    requires SlotsOk(live, a) && SameActive(a, b)
    ensures SlotsOk(live, b)
  {
    forall id | id in live ensures HasSlot(b, id) {
      assert HasSlot(a, id);
      var i :| Owns(a, i, id);
      assert Owns(b, i, id);
    }
  }

  lemma {:induction false} MoreSlotsOk(live: set<Id>, before: seq<Slot>, after: seq<Slot>, i: int, id: Id)
    requires SlotsOk(live, before) && Created(before, after, i, id) && id !in live
    ensures SlotsOk(live + {id}, after)
  {
    CreatedOwns(before, after, i, id);
    forall x | x in live + {id} ensures HasSlot(after, x) {
      if x == id {
        assert Owns(after, i, id);
      } else {
        assert HasSlot(before, x);
        var j :| Owns(before, j, x);
        assert Owns(after, j, x);
      }
    }
  }

  // ----- steps that change nothing visible -----

  /** An id may be used up and inactive slots may change. */
  lemma {:induction false} BurnKeeps(s: State, s': State, distinct: bool, loading: Option<string>)
    requires Inv(s, distinct, loading) && s.nextId <= s'.nextId && SameActive(s.slots, s'.slots)
    requires s' == s.(nextId := s'.nextId, slots := s'.slots)
    ensures Inv(s', distinct, loading)
  {
    if distinct {
      SameSlotsOk(s.registry.Keys, s.slots, s'.slots);
    }
  }

  // ----- a new deferred instrument -----

  /** A new entry with the queue items for the sides that still wait. */
  function AddDeferred(s: State, e: Entry, items: seq<Item>, slots: seq<Slot>): State {
    s.(registry := s.registry[s.nextId := e], nextId := s.nextId + 1, queue := s.queue + items, slots := slots)
  }

  ghost predicate NewMethod(reg: Registry, cls: string, sig: string) {
    forall id :: MethodAt(reg, id) ==> reg[id].cls != cls || reg[id].sig != sig
  }

  /** `items` are exactly the queue items a new entry `e` with number `id` needs. */
  ghost predicate ItemsFor(s: State, e: Entry, items: seq<Item>, slot: nat, loading: Option<string>) {
    && (forall it :: it in items ==>
          it.id == s.nextId && it.slot == slot && ItemOk(s.registry[s.nextId := e], s.methods.Keys, it, loading))
    && (forall i, j :: 0 <= i < j < |items| ==> !SameTask(items[i], items[j]))
    && (if e.MethodEntry? then e.deferred && HasMethodItem(items, s.nextId) && NewMethod(s.registry, e.cls, e.sig)
        else !e.Ready() && forall side: Side :: e.Waiting(side) ==> HasLineItem(items, s.nextId, side))
    && (e.LineEntry? ==> LineClassesOk(map[s.nextId := e], s.methods.Keys))
  }

  lemma {:induction false} AddQueueOk(reg: Registry, q: seq<Item>, loaded: set<string>, loading: Option<string>,
                                      id: Id, e: Entry, items: seq<Item>)
    requires QueueOk(reg, q, loaded, loading) && id !in reg
    requires forall it :: it in items ==> it.id == id && ItemOk(reg[id := e], loaded, it, loading)
    requires forall i, j :: 0 <= i < j < |items| ==> !SameTask(items[i], items[j])
    ensures QueueOk(reg[id := e], q + items, loaded, loading)
  {
    var all := q + items;
    forall it | it in q ensures ItemOk(reg[id := e], loaded, it, loading) && it.id != id {
      assert ItemOk(reg, loaded, it, loading);
    }
    forall i, j | 0 <= i < j < |all| ensures !SameTask(all[i], all[j]) {
      if i < |q| { assert all[i] in q; }
      if j >= |q| { assert all[j] in items; }
    }
  }

  lemma {:induction false} MoreItems(q: seq<Item>, items: seq<Item>, id: Id)
    ensures HasMethodItem(q, id) || HasMethodItem(items, id) ==> HasMethodItem(q + items, id)
    ensures forall side: Side :: HasLineItem(q, id, side) || HasLineItem(items, id, side) ==>
            HasLineItem(q + items, id, side)
  {
  }

  lemma {:induction false} AddDeferredQueued(reg: Registry, q: seq<Item>, id: Id, e: Entry, items: seq<Item>)
    requires DeferredAreQueued(reg, q) && id !in reg
    requires e.MethodEntry? ==> HasMethodItem(items, id)
    requires e.LineEntry? ==> forall side: Side :: e.Waiting(side) ==> HasLineItem(items, id, side)
    ensures DeferredAreQueued(reg[id := e], q + items)
  {
    var reg' := reg[id := e];
    forall x | MethodAt(reg', x) && reg'[x].deferred ensures HasMethodItem(q + items, x) {
      MoreItems(q, items, x);
      assert x != id ==> MethodAt(reg, x);
    }
    forall x, side: Side | LineAt(reg', x) && reg'[x].Waiting(side) ensures HasLineItem(q + items, x, side) {
      MoreItems(q, items, x);
      assert x != id ==> LineAt(reg, x);
    }
  }

  lemma {:induction false} AddMethodsOk(reg: Registry, ms: Methods, id: Id, e: Entry)
    requires MethodsOk(reg, ms) && id !in reg && (e.MethodEntry? ==> e.deferred)
    ensures MethodsOk(reg[id := e], ms)
  {
    var reg' := reg[id := e];
    forall x | MethodAt(reg', x) && !reg'[x].deferred ensures HasMethodRec(ms, reg'[x].cls, x) {
      assert MethodAt(reg, x);
    }
  }

  lemma {:induction false} AddOnePerMethod(reg: Registry, id: Id, e: Entry)
    requires OnePerMethod(reg) && id !in reg && (e.MethodEntry? ==> NewMethod(reg, e.cls, e.sig))
    ensures OnePerMethod(reg[id := e])
  {
    assert forall x :: MethodAt(reg[id := e], x) && x != id ==> MethodAt(reg, x);
  }

  lemma {:induction false} AddLineClasses(reg: Registry, loaded: set<string>, id: Id, e: Entry)
    requires LineClassesOk(reg, loaded) && (e.LineEntry? ==> LineClassesOk(map[id := e], loaded))
    ensures LineClassesOk(reg[id := e], loaded)
  {
    var reg' := reg[id := e];
    forall x | LineAt(reg', x)
      ensures var f := reg'[x];
              && (!f.enterDeferred ==> f.cls in loaded)
              && (!f.exitDeferred ==> f.exitCls in loaded || (f.exitCls == f.cls && f.enterDeferred))
    {
      if x == id { assert LineAt(map[id := e], id); } else { assert LineAt(reg, x); }
    }
  }

  lemma {:induction false} AddDistinct(reg: Registry, id: Id, e: Entry)
    requires DistinctLines(reg) && id !in reg && (e.LineEntry? ==> Apart(reg, e))
    ensures DistinctLines(reg[id := e])
  {
    assert forall x :: LineAt(reg[id := e], x) && x != id ==> LineAt(reg, x);
  }

  lemma {:induction false} AddLinesOk(reg: Registry, ls: Lines, id: Id, e: Entry)
    requires LinesOk(reg, ls) && id !in reg && !e.Ready()
    ensures LinesOk(reg[id := e], ls)
  {
    var reg' := reg[id := e];
    forall x, side: Side | LineAt(reg', x) && reg'[x].Ready() ensures HasLineRec(ls, reg'[x].ClassOf(side), x, side)
    {
      assert LineAt(reg, x);
    }
  }

  lemma {:induction false} AddDeferredBase(s: State, e: Entry, items: seq<Item>, slots: seq<Slot>, slot: nat,
                                           loading: Option<string>)
    requires Base(s, loading) && ItemsFor(s, e, items, slot, loading)
    ensures Base(AddDeferred(s, e, items, slots), loading)
  {
    assert s.nextId !in s.registry;
    AddQueueOk(s.registry, s.queue, s.methods.Keys, loading, s.nextId, e, items);
    AddDeferredQueued(s.registry, s.queue, s.nextId, e, items);
    AddMethodsOk(s.registry, s.methods, s.nextId, e);
    AddOnePerMethod(s.registry, s.nextId, e);
    AddLineClasses(s.registry, s.methods.Keys, s.nextId, e);
  }

  /** A new deferred instrument, of either kind, keeps everything in agreement. */
  lemma {:induction false} AddDeferredKeeps(s: State, e: Entry, items: seq<Item>, slots: seq<Slot>, slot: nat,
                                            distinct: bool, loading: Option<string>)
    requires Inv(s, distinct, loading) && ItemsFor(s, e, items, slot, loading)
    requires Created(s.slots, slots, slot, s.nextId)
    ensures Inv(AddDeferred(s, e, items, slots), distinct && (e.LineEntry? ==> Apart(s.registry, e)), loading)
  {
    hide Base, Full;
    AddDeferredBase(s, e, items, slots, slot, loading);
    if distinct && (e.LineEntry? ==> Apart(s.registry, e)) {
      AddDeferredFull(s, e, items, slots, slot, loading);
    }
  }

  lemma {:induction false} AddDeferredFull(s: State, e: Entry, items: seq<Item>, slots: seq<Slot>, slot: nat,
                                           loading: Option<string>)
    requires Base(s, loading) && Full(s) && ItemsFor(s, e, items, slot, loading)
    requires Created(s.slots, slots, slot, s.nextId) && (e.LineEntry? ==> Apart(s.registry, e))
    ensures Full(AddDeferred(s, e, items, slots))
  {
    var id := s.nextId;
    assert id !in s.registry;
    AddDistinct(s.registry, id, e);
    AddLinesOk(s.registry, s.lines, id, e);
    CreatedOwns(s.slots, slots, slot, id);
    MoreSlotsOk(s.registry.Keys, s.slots, slots, slot, id);
    assert s.registry[id := e].Keys == s.registry.Keys + {id};
  }

  // ----- a queued method is applied -----

  /** What `instrument_now` does for the queued method at position `p`: the
      record is made, the class reinstalled, the entry marked, the item removed. */
  function ApplyMethod(s: State, p: nat): State
    requires p < |s.queue| && s.queue[p].MethodItem? && s.queue[p].cls in s.methods && s.queue[p].cls in s.lines
  {
    var it := s.queue[p];
    var recs := s.methods[it.cls] + [MethodRec(it.sig, it.slot, it.id)];
    s.(registry := s.registry[it.id := MethodEntry(it.cls, it.sig, false)],
       queue := Without(s.queue, p),
       methods := s.methods[it.cls := recs],
       installed := s.installed[it.cls := Wanted(recs, s.lines[it.cls])])
  }

  /** Without item `p`, every other task still has its item. */
  lemma {:induction false} OtherItems(q: seq<Item>, p: nat, id: Id)
    requires p < |q|
    ensures HasMethodItem(q, id) && !(q[p].id == id && q[p].MethodItem?) ==> HasMethodItem(Without(q, p), id)
    ensures forall side: Side :: HasLineItem(q, id, side) && !(q[p].id == id && q[p].LineItem? && q[p].side == side) ==>
              HasLineItem(Without(q, p), id, side)
  {
    var w := Without(q, p);
    forall i | 0 <= i < |q| && i != p ensures q[i] in w {
      assert w[if i < p then i else i - 1] == q[i];
    }
  }

  lemma {:induction false} WithoutTasks(q: seq<Item>, p: nat)
    requires p < |q| && forall i, j :: 0 <= i < j < |q| ==> !SameTask(q[i], q[j])
    ensures var w := Without(q, p);
            && (forall i, j :: 0 <= i < j < |w| ==> !SameTask(w[i], w[j]))
            && (forall it :: it in w ==> it in q && !SameTask(it, q[p]))
  {
    var w := Without(q, p);
    forall it | it in w ensures it in q && !SameTask(it, q[p]) {
      var i :| 0 <= i < |w| && w[i] == it;
      assert it == q[if i < p then i else i + 1];
    }
  }

  /** An entry changes in a way its other items do not mind, and item `p` goes. */
  lemma {:induction false} ChangeQueueOk(reg: Registry, q: seq<Item>, loaded: set<string>, loading: Option<string>,
                                         p: nat, e: Entry)
    requires QueueOk(reg, q, loaded, loading) && p < |q|
    requires forall it :: it in q && it.id == q[p].id && !SameTask(it, q[p]) ==>
             ItemOk(reg[q[p].id := e], loaded, it, loading)
    ensures QueueOk(reg[q[p].id := e], Without(q, p), loaded, loading)
  {
    WithoutTasks(q, p);
    forall it | it in Without(q, p) ensures ItemOk(reg[q[p].id := e], loaded, it, loading) {
      assert ItemOk(reg, loaded, it, loading);
    }
  }

  lemma {:induction false} ChangeDeferred(reg: Registry, q: seq<Item>, p: nat, e: Entry)
    requires DeferredAreQueued(reg, q) && p < |q| && q[p].id in reg
    requires if q[p].MethodItem? then e.MethodEntry? && !e.deferred
             else e.LineEntry? && reg[q[p].id].LineEntry? && !e.Waiting(q[p].side) &&
                  forall side: Side :: e.Waiting(side) ==> reg[q[p].id].Waiting(side)
    ensures DeferredAreQueued(reg[q[p].id := e], Without(q, p))
  {
    var reg', w := reg[q[p].id := e], Without(q, p);
    forall x | MethodAt(reg', x) && reg'[x].deferred ensures HasMethodItem(w, x) {
      OtherItems(q, p, x);
      assert MethodAt(reg, x);
    }
    forall x, side: Side | LineAt(reg', x) && reg'[x].Waiting(side) ensures HasLineItem(w, x, side) {
      OtherItems(q, p, x);
      assert LineAt(reg, x);
    }
  }

  lemma {:induction false} AddRecMethodsOk(reg: Registry, ms: Methods, cls: string, r: MethodRec)
    requires MethodsOk(reg, ms) && cls in ms && reg.Keys >= {r.id} && reg[r.id] == MethodEntry(cls, r.sig, true)
    ensures MethodsOk(reg[r.id := MethodEntry(cls, r.sig, false)], ms[cls := ms[cls] + [r]])
  {
    var reg', ms' := reg[r.id := MethodEntry(cls, r.sig, false)], ms[cls := ms[cls] + [r]];
    assert forall x :: x in ms[cls] ==> x.id != r.id;
    forall x | MethodAt(reg', x) && !reg'[x].deferred ensures HasMethodRec(ms', reg'[x].cls, x) {
      if x == r.id {
        assert r in ms'[cls];
      } else {
        assert MethodAt(reg, x) && HasMethodRec(ms, reg[x].cls, x);
        var y :| y in ms[reg[x].cls] && y.id == x;
        assert y in ms'[reg[x].cls];
      }
    }
  }

  lemma {:induction false} ApplyMethodBase(s: State, p: nat, loading: Option<string>)
    requires Base(s, loading) && p < |s.queue| && s.queue[p].MethodItem? && s.queue[p].cls in s.methods
    ensures Base(ApplyMethod(s, p), loading)
  {
    var it, s' := s.queue[p], ApplyMethod(s, p);
    assert ItemOk(s.registry, s.methods.Keys, it, loading);
    ChangeQueueOk(s.registry, s.queue, s.methods.Keys, loading, p, MethodEntry(it.cls, it.sig, false));
    ChangeDeferred(s.registry, s.queue, p, MethodEntry(it.cls, it.sig, false));
    AddRecMethodsOk(s.registry, s.methods, it.cls, MethodRec(it.sig, it.slot, it.id));
    assert s'.methods.Keys == s.methods.Keys && s'.installed.Keys == s.installed.Keys;
    SameNames(s.registry, it.id, it.cls, it.sig);
    assert LineClassesOk(s'.registry, s'.methods.Keys) by {
      assert forall x :: LineAt(s'.registry, x) ==> LineAt(s.registry, x);
    }
  }

  lemma {:induction false} SameNames(reg: Registry, id: Id, cls: string, sig: string)
    requires OnePerMethod(reg) && id in reg && reg[id] == MethodEntry(cls, sig, true)
    ensures OnePerMethod(reg[id := MethodEntry(cls, sig, false)])
  {
    var reg' := reg[id := MethodEntry(cls, sig, false)];
    assert forall x :: MethodAt(reg', x) <==> MethodAt(reg, x);
    assert forall x :: MethodAt(reg, x) ==> reg'[x].cls == reg[x].cls && reg'[x].sig == reg[x].sig;
  }

  /** Making a method entry active changes nothing about the line entries. */
  lemma {:induction false} MethodLeavesLines(reg: Registry, ls: Lines, id: Id, e: Entry)
    requires MethodAt(reg, id) && e.MethodEntry? && DistinctLines(reg) && LinesOk(reg, ls)
    ensures DistinctLines(reg[id := e]) && LinesOk(reg[id := e], ls)
  {
    var reg' := reg[id := e];
    assert forall x :: LineAt(reg', x) <==> LineAt(reg, x);
    assert forall x :: LineAt(reg, x) ==> reg'[x] == reg[x];
  }

  lemma {:induction false} ApplyMethodKeeps(s: State, p: nat, distinct: bool, loading: Option<string>)
    requires Inv(s, distinct, loading) && p < |s.queue| && s.queue[p].MethodItem? && s.queue[p].cls in s.methods
    ensures Inv(ApplyMethod(s, p), distinct, loading)
  {
    ApplyMethodBase(s, p, loading);
    if distinct {
      ApplyMethodFull(s, p, loading);
    }
  }

  lemma {:induction false} ApplyMethodFull(s: State, p: nat, loading: Option<string>)
    requires Base(s, loading) && Full(s) && p < |s.queue| && s.queue[p].MethodItem? && s.queue[p].cls in s.methods
    ensures Full(ApplyMethod(s, p))
  {
    var it, s' := s.queue[p], ApplyMethod(s, p);
    assert it in s.queue && ItemOk(s.registry, s.methods.Keys, it, loading);
    MethodLeavesLines(s.registry, s.lines, it.id, MethodEntry(it.cls, it.sig, false));
    WithoutTasks(s.queue, p);
    AddMethodSlots(s.methods, it.cls, MethodRec(it.sig, it.slot, it.id), s.slots);
    ReinstallKeepsLines(s'.methods, s.lines, s.installed, it.cls);
    assert s'.registry.Keys == s.registry.Keys;
  }

  lemma {:induction false} AddMethodSlots(ms: Methods, cls: string, r: MethodRec, slots: seq<Slot>)
    requires MethodSlots(ms, slots) && cls in ms && Owns(slots, r.slot, r.id)
    ensures MethodSlots(ms[cls := ms[cls] + [r]], slots)
  {
  }

  lemma {:induction false} ReinstallKeepsLines(ms: Methods, ls: Lines, installed: Installed, cls: string)
    requires LinesInstalled(ls, installed) && cls in ms && cls in ls
    ensures LinesInstalled(ls, installed[cls := Wanted(ms[cls], ls[cls])])
  {
    var installed' := installed[cls := Wanted(ms[cls], ls[cls])];
    forall c, r | c in ls && r in ls[c] ensures c in installed' && LineProbe(r.line, r.slot, r.side) in installed'[c] {
      if c == cls { WantedHasLine(ms[cls], ls[cls], r); }
    }
  }

  // ----- a queued line is marked, or applied when both its sides are ready -----

  /** One side of a line finds its class loaded while the other still waits. */
  function MarkLine(s: State, p: nat): State
    requires p < |s.queue| && s.queue[p].LineItem? && LineAt(s.registry, s.queue[p].id)
  {
    var it := s.queue[p];
    s.(registry := s.registry[it.id := s.registry[it.id].Applied(it.side)], queue := Without(s.queue, p))
  }

  function AddLines(ls: Lines, e: Entry, id: Id, slot: nat): (r: Lines)
    requires e.LineEntry? && e.cls in ls && e.exitCls in ls
    ensures r.Keys == ls.Keys
  {
    var l1 := ls[e.cls := ls[e.cls] + [LineRec(e.line, slot, id, Enter)]];
    l1[e.exitCls := l1[e.exitCls] + [LineRec(e.exitLine, slot, id, Exit)]]
  }

  /** What the class would be installed with right now. */
  function Reinstalled(installed: Installed, ms: Methods, ls: Lines, cls: string): Installed
    requires cls in ms && cls in ls
  {
    installed[cls := Wanted(ms[cls], ls[cls])]
  }

  /** The second side finds its class loaded: both records are made and both
      classes reinstalled. */
  function ApplyLine(s: State, p: nat): State
    requires p < |s.queue| && s.queue[p].LineItem? && LineAt(s.registry, s.queue[p].id)
    requires s.methods.Keys == s.lines.Keys
    requires s.registry[s.queue[p].id].cls in s.lines && s.registry[s.queue[p].id].exitCls in s.lines
  {
    var it := s.queue[p];
    var e := s.registry[it.id];
    var ls := AddLines(s.lines, e, it.id, it.slot);
    s.(registry := s.registry[it.id := e.Applied(it.side)],
       queue := Without(s.queue, p),
       lines := ls,
       installed := Reinstalled(Reinstalled(s.installed, s.methods, ls, e.cls), s.methods, ls, e.exitCls))
  }

  lemma {:induction false} LineLeavesMethods(reg: Registry, ms: Methods, id: Id, e: Entry)
    requires LineAt(reg, id) && e.LineEntry? && MethodsOk(reg, ms) && OnePerMethod(reg)
    ensures MethodsOk(reg[id := e], ms) && OnePerMethod(reg[id := e])
  {
    var reg' := reg[id := e];
    assert forall x :: MethodAt(reg', x) <==> MethodAt(reg, x);
    assert forall x :: MethodAt(reg, x) ==> reg'[x] == reg[x];
  }

  lemma {:induction false} AppliedQueueOk(reg: Registry, q: seq<Item>, loaded: set<string>, loading: Option<string>,
                                          p: nat)
    requires QueueOk(reg, q, loaded, loading) && DeferredAreQueued(reg, q) && p < |q| && q[p].LineItem?
    ensures q[p].id in reg && LineAt(reg, q[p].id)
    ensures var reg' := reg[q[p].id := reg[q[p].id].Applied(q[p].side)];
            QueueOk(reg', Without(q, p), loaded, loading) && DeferredAreQueued(reg', Without(q, p))
  {
    assert ItemOk(reg, loaded, q[p], loading);
    var e := reg[q[p].id].Applied(q[p].side);
    forall it | it in q && it.id == q[p].id && !SameTask(it, q[p])
      ensures ItemOk(reg[q[p].id := e], loaded, it, loading) {
      assert ItemOk(reg, loaded, it, loading);
    }
    ChangeQueueOk(reg, q, loaded, loading, p, e);
    ChangeDeferred(reg, q, p, e);
  }

  lemma {:induction false} AppliedClassesOk(reg: Registry, loaded: set<string>, id: Id, side: Side)
    requires LineClassesOk(reg, loaded) && LineAt(reg, id) && reg[id].ClassOf(side) in loaded
    ensures LineClassesOk(reg[id := reg[id].Applied(side)], loaded)
  {
    var reg' := reg[id := reg[id].Applied(side)];
    forall x | LineAt(reg', x)
      ensures var f := reg'[x];
              && (!f.enterDeferred ==> f.cls in loaded)
              && (!f.exitDeferred ==> f.exitCls in loaded || (f.exitCls == f.cls && f.enterDeferred))
    {
      assert LineAt(reg, x);
    }
  }

  lemma {:induction false} AppliedDistinct(reg: Registry, id: Id, side: Side)
    requires DistinctLines(reg) && LineAt(reg, id)
    ensures DistinctLines(reg[id := reg[id].Applied(side)])
  {
    var reg' := reg[id := reg[id].Applied(side)];
    assert forall x :: LineAt(reg', x) <==> LineAt(reg, x);
    forall a, b | LineAt(reg', a) && LineAt(reg', b) && a != b ensures NoSharedPlace(reg'[a], reg'[b]) {
      assert NoSharedPlace(reg[a], reg[b]);
      assert forall x: Side :: reg'[a].ClassOf(x) == reg[a].ClassOf(x) && reg'[a].LineOf(x) == reg[a].LineOf(x);
      assert forall x: Side :: reg'[b].ClassOf(x) == reg[b].ClassOf(x) && reg'[b].LineOf(x) == reg[b].LineOf(x);
    }
  }

  lemma {:induction false} MarkLineBase(s: State, p: nat, loading: Option<string>)
    requires Base(s, loading) && p < |s.queue| && s.queue[p].LineItem? && s.queue[p].cls in s.methods
    ensures LineAt(s.registry, s.queue[p].id) && Base(MarkLine(s, p), loading)
  {
    var it := s.queue[p];
    assert ItemOk(s.registry, s.methods.Keys, it, loading);
    var e := s.registry[it.id].Applied(it.side);
    AppliedQueueOk(s.registry, s.queue, s.methods.Keys, loading, p);
    LineLeavesMethods(s.registry, s.methods, it.id, e);
    AppliedClassesOk(s.registry, s.methods.Keys, it.id, it.side);
  }

  /** Records of the entry that has just stopped waiting did not exist before. */
  lemma {:induction false} NoRecsYet(reg: Registry, ls: Lines, id: Id)
    requires LinesOk(reg, ls) && LineAt(reg, id) && !reg[id].Ready()
    ensures forall c, r :: c in ls && r in ls[c] ==> r.id != id
  {
    forall c, r | c in ls && r in ls[c] ensures r.id != id {
      assert LineRecOk(reg, c, r);
    }
  }

  lemma {:induction false} MarkLinesOk(reg: Registry, ls: Lines, id: Id, e: Entry)
    requires LinesOk(reg, ls) && LineAt(reg, id) && !reg[id].Ready() && e.LineEntry? && !e.Ready()
    ensures LinesOk(reg[id := e], ls)
  {
    NoRecsYet(reg, ls, id);
    var reg' := reg[id := e];
    forall c, r | c in ls && r in ls[c] ensures LineRecOk(reg', c, r) {
      assert LineRecOk(reg, c, r);
    }
    forall x, side: Side | LineAt(reg', x) && reg'[x].Ready() ensures HasLineRec(ls, reg'[x].ClassOf(side), x, side) {
      assert LineAt(reg, x);
    }
  }

  lemma {:induction false} MarkLineKeeps(s: State, p: nat, distinct: bool, loading: Option<string>)
    requires Inv(s, distinct, loading) && p < |s.queue| && s.queue[p].LineItem? && s.queue[p].cls in s.methods
    requires LineAt(s.registry, s.queue[p].id) && !s.registry[s.queue[p].id].Applied(s.queue[p].side).Ready()
    ensures Inv(MarkLine(s, p), distinct, loading)
  {
    MarkLineBase(s, p, loading);
    if distinct {
      var it := s.queue[p];
      AppliedDistinct(s.registry, it.id, it.side);
      MarkLinesOk(s.registry, s.lines, it.id, s.registry[it.id].Applied(it.side));
      WithoutTasks(s.queue, p);
      assert MarkLine(s, p).registry.Keys == s.registry.Keys;
    }
  }

  lemma {:induction false} AddLinesContents(ls: Lines, e: Entry, id: Id, slot: nat)
    requires e.LineEntry? && e.cls in ls && e.exitCls in ls
    ensures var ls' := AddLines(ls, e, id, slot);
            var enter, exit := LineRec(e.line, slot, id, Enter), LineRec(e.exitLine, slot, id, Exit);
            && enter in ls'[e.cls] && exit in ls'[e.exitCls]
            && (forall c, r :: c in ls && r in ls[c] ==> r in ls'[c])
            && (forall c, r :: c in ls' && r in ls'[c] ==>
                  r in ls[c] || (c == e.cls && r == enter) || (c == e.exitCls && r == exit))
  {
  }

  lemma {:induction false} AddLinesPerSide(ls: Lines, e: Entry, id: Id, slot: nat)
    requires e.LineEntry? && e.cls in ls && e.exitCls in ls
    requires forall c, r :: c in ls && r in ls[c] ==> r.id != id
    requires forall c :: c in ls ==> OneRecPerSide(ls[c])
    ensures forall c :: c in ls ==> OneRecPerSide(AddLines(ls, e, id, slot)[c])
  {
    var enter, exit := LineRec(e.line, slot, id, Enter), LineRec(e.exitLine, slot, id, Exit);
    var l1 := ls[e.cls := ls[e.cls] + [enter]];
    assert forall c, p :: c in ls && 0 <= p < |ls[c]| ==> ls[c][p] in ls[c];
    forall c | c in ls ensures OneRecPerSide(AddLines(ls, e, id, slot)[c]) {
      assert OneRecPerSide(ls[c]);
      var now: seq<LineRec> := l1[c];
      assert forall p :: 0 <= p < |now| ==> now[p].id != id || now[p] == enter;
    }
  }

  lemma {:induction false} ApplyLinesOk(reg: Registry, ls: Lines, id: Id, side: Side, slot: nat)
    requires LinesOk(reg, ls) && LineAt(reg, id) && !reg[id].Ready() && reg[id].Applied(side).Ready()
    requires reg[id].cls in ls && reg[id].exitCls in ls
    ensures LinesOk(reg[id := reg[id].Applied(side)], AddLines(ls, reg[id], id, slot))
  {
    NoRecsYet(reg, ls, id);
    var e := reg[id];
    var reg', ls' := reg[id := e.Applied(side)], AddLines(ls, e, id, slot);
    AddLinesContents(ls, e, id, slot);
    AddLinesPerSide(ls, e, id, slot);
    forall c, r | c in ls' && r in ls'[c] ensures LineRecOk(reg', c, r) {
      if r in ls[c] { assert LineRecOk(reg, c, r); }
    }
    forall x, y: Side | LineAt(reg', x) && reg'[x].Ready() ensures HasLineRec(ls', reg'[x].ClassOf(y), x, y) {
      if x == id {
        assert HasLineRec(ls', e.cls, id, Enter) && HasLineRec(ls', e.exitCls, id, Exit);
      } else {
        assert LineAt(reg, x) && HasLineRec(ls, reg[x].ClassOf(y), x, y);
      }
    }
  }

  lemma {:induction false} ReinstallKeepsMethods(ms: Methods, ls: Lines, installed: Installed, cls: string)
    requires MethodsInstalled(ms, installed) && cls in ms && cls in ls
    ensures MethodsInstalled(ms, Reinstalled(installed, ms, ls, cls))
  {
    var installed' := Reinstalled(installed, ms, ls, cls);
    forall c, r | c in ms && r in ms[c] ensures c in installed' && MethodProbe(r.sig, r.slot) in installed'[c] {
      assert c in installed;
      if c == cls { WantedHas(ms[cls], ls[cls], r); }
    }
  }

  lemma {:induction false} WantedHas(ms: seq<MethodRec>, ls: seq<LineRec>, r: MethodRec)
    requires r in ms
    ensures MethodProbe(r.sig, r.slot) in Wanted(ms, ls)
  {
    assert MethodProbe(r.sig, r.slot) in set m | m in ms :: MethodProbe(m.sig, m.slot);
  }

  lemma {:induction false} WantedHasLine(ms: seq<MethodRec>, ls: seq<LineRec>, r: LineRec)
    requires r in ls
    ensures LineProbe(r.line, r.slot, r.side) in Wanted(ms, ls)
  {
    assert LineProbe(r.line, r.slot, r.side) in set l | l in ls :: LineProbe(l.line, l.slot, l.side);
  }

  lemma {:induction false} ReinstallCovers(ms: Methods, ls: Lines, ls': Lines, installed: Installed, a: string,
                                           b: string)
    requires LinesInstalled(ls, installed) && ls.Keys == ls'.Keys == ms.Keys && a in ls && b in ls
    requires forall c :: c in ls && c != a && c != b ==> ls'[c] == ls[c]
    ensures LinesInstalled(ls', Reinstalled(Reinstalled(installed, ms, ls', a), ms, ls', b))
  {
    var installed' := Reinstalled(Reinstalled(installed, ms, ls', a), ms, ls', b);
    forall c, r | c in ls' && r in ls'[c]
      ensures c in installed' && LineProbe(r.line, r.slot, r.side) in installed'[c] {
      if c == a || c == b {
        WantedHasLine(ms[c], ls'[c], r);
      } else {
        assert r in ls[c] && c in installed;
      }
    }
  }

  lemma {:induction false} ApplyLineBase(s: State, p: nat, loading: Option<string>)
    requires Base(s, loading) && p < |s.queue| && s.queue[p].LineItem? && s.queue[p].cls in s.methods
    requires LineAt(s.registry, s.queue[p].id) && s.registry[s.queue[p].id].Applied(s.queue[p].side).Ready()
    ensures s.registry[s.queue[p].id].cls in s.lines && s.registry[s.queue[p].id].exitCls in s.lines
    ensures Base(ApplyLine(s, p), loading)
  {
    var it := s.queue[p];
    MarkLineBase(s, p, loading);
    assert LineAt(MarkLine(s, p).registry, it.id);
    var e, s' := s.registry[it.id], ApplyLine(s, p);
    AddLinesContents(s.lines, e, it.id, it.slot);
    assert LineRecsKnown(MarkLine(s, p).registry, s.nextId, s'.lines);
    ReinstallKeepsMethods(s.methods, s'.lines, s.installed, e.cls);
    ReinstallKeepsMethods(s.methods, s'.lines, Reinstalled(s.installed, s.methods, s'.lines, e.cls), e.exitCls);
    assert s'.installed.Keys == s.installed.Keys;
  }

  lemma {:induction false} ApplyLineKeeps(s: State, p: nat, distinct: bool, loading: Option<string>)
    requires Inv(s, distinct, loading) && p < |s.queue| && s.queue[p].LineItem? && s.queue[p].cls in s.methods
    requires LineAt(s.registry, s.queue[p].id) && s.registry[s.queue[p].id].Applied(s.queue[p].side).Ready()
    ensures s.registry[s.queue[p].id].cls in s.lines && s.registry[s.queue[p].id].exitCls in s.lines
    ensures Inv(ApplyLine(s, p), distinct, loading)
  {
    ApplyLineBase(s, p, loading);
    if distinct {
      ApplyLineFull(s, p, loading);
    }
  }

  lemma {:induction false} ApplyLineFull(s: State, p: nat, loading: Option<string>)
    requires Base(s, loading) && Full(s) && p < |s.queue| && s.queue[p].LineItem?
    requires LineAt(s.registry, s.queue[p].id) && s.registry[s.queue[p].id].Applied(s.queue[p].side).Ready()
    requires s.registry[s.queue[p].id].cls in s.lines && s.registry[s.queue[p].id].exitCls in s.lines
    ensures Full(ApplyLine(s, p))
  {
    var it := s.queue[p];
    assert it in s.queue && ItemOk(s.registry, s.methods.Keys, it, loading);
    var e, s' := s.registry[it.id], ApplyLine(s, p);
    AppliedDistinct(s.registry, it.id, it.side);
    ApplyLinesOk(s.registry, s.lines, it.id, it.side, it.slot);
    WithoutTasks(s.queue, p);
    ReinstallCovers(s.methods, s.lines, s'.lines, s.installed, e.cls, e.exitCls);
    AddLineSlots(s.lines, e, it.id, it.slot, s.slots);
    assert s'.registry.Keys == s.registry.Keys;
  }

  lemma {:induction false} AddLineSlots(ls: Lines, e: Entry, id: Id, slot: nat, slots: seq<Slot>)
    requires e.LineEntry? && e.cls in ls && e.exitCls in ls && LineSlots(ls, slots) && Owns(slots, slot, id)
    ensures LineSlots(AddLines(ls, e, id, slot), slots)
  {
    AddLinesContents(ls, e, id, slot);
  }
}
