/**
 A class is loaded: the queued instruments that waited for it are applied one
 after the other, each of which may fail and is then taken away.
 */
module DrainLemmas {
  import opened Prelude
  import opened HandlerState
  import opened HandlerLemmas
  import opened RetireLemmas
  import opened RollbackLemmas
  import opened HandlerOutcomes

  /** The entry once nothing of it waits for `name` any more. */
  function Advanced(e: Entry, name: string): Entry {
    if e.MethodEntry? then e.(deferred := e.deferred && e.cls != name)
    else e.(enterDeferred := e.enterDeferred && e.cls != name, exitDeferred := e.exitDeferred && e.exitCls != name)
  }

  predicate Concerns(e: Entry, name: string) { e.cls == name || (e.LineEntry? && e.exitCls == name) }

  /** Entries only advance or, when they concern the class, go. */
  ghost predicate Advances(reg: Registry, reg': Registry, name: string) {
    && (forall id :: id in reg' ==> id in reg && Advanced(reg'[id], name) == Advanced(reg[id], name))
    && (forall id :: id in reg && id !in reg' ==> Concerns(reg[id], name))
  }

  /** What one queue item comes to. */
  ghost predicate DrainStep(s: State, s': State, p: nat, name: string)
    requires p < |s.queue|
  {
    && s'.queue == Without(s.queue, p) && s'.methods.Keys == s.methods.Keys && s'.nextId == s.nextId
    && Advances(s.registry, s'.registry, name)
  }

  /** Part way through: items for other classes are all still there. */
  ghost predicate Draining(s: State, s': State, name: string) {
    && s'.methods.Keys == s.methods.Keys && s'.nextId == s.nextId && Advances(s.registry, s'.registry, name)
    && (forall it :: it in s'.queue ==> it in s.queue)
    && (forall it :: it in s.queue && it.cls != name ==> it in s'.queue)
  }

  /** What loading a class comes to: every instrument that waited for it has
      advanced or is gone, and no other is affected. */
  ghost predicate LoadedOutcome(s: State, s': State, name: string) {
    && s'.methods.Keys == s.methods.Keys + {name} && s'.nextId == s.nextId
    && (forall id :: id in s'.registry ==> id in s.registry && s'.registry[id] == Advanced(s.registry[id], name))
    && (forall id :: id in s.registry && id !in s'.registry ==> Concerns(s.registry[id], name))
    && (forall it :: it in s'.queue <==> it in s.queue && it.cls != name)
  }

  lemma {:induction false} StepDrains(s: State, mid: State, s': State, p: nat, name: string)
    requires Draining(s, mid, name) && p < |mid.queue| && DrainStep(mid, s', p, name) && mid.queue[p].cls == name
    ensures Draining(s, s', name)
  {
    var w := Without(mid.queue, p);
    forall it | it in w ensures it in mid.queue {
      var k :| 0 <= k < |w| && w[k] == it;
      assert it == mid.queue[if k < p then k else k + 1];
    }
    forall it | it in s.queue && it.cls != name ensures it in w {
      var k :| 0 <= k < |mid.queue| && mid.queue[k] == it;
      assert w[if k < p then k else k - 1] == it;
    }
    forall id | id in s.registry && id !in s'.registry ensures Concerns(s.registry[id], name) {
      if id in mid.registry {
        AdvancedConcerns(mid.registry[id], s.registry[id], name);
      }
    }
  }

  lemma {:induction false} AdvancedConcerns(e: Entry, f: Entry, name: string)
    requires Advanced(e, name) == Advanced(f, name)
    ensures Concerns(e, name) <==> Concerns(f, name)
  {
  }

  /** With no item left for the class, no entry waits for it. */
  lemma {:induction false} DrainedAdvanced(s: State, name: string, id: Id, loading: Option<string>)
    requires Base(s, loading) && (forall it :: it in s.queue ==> it.cls != name) && id in s.registry
    ensures Advanced(s.registry[id], name) == s.registry[id]
  {
    var e := s.registry[id];
    if e.MethodEntry? {
      if e.deferred {
        assert MethodAt(s.registry, id) && HasMethodItem(s.queue, id);
        var it :| it in s.queue && it.id == id && it.MethodItem?;
        assert ItemOk(s.registry, s.methods.Keys, it, loading);
      }
    } else {
      forall side: Side | e.Waiting(side) ensures e.ClassOf(side) != name {
        assert LineAt(s.registry, id) && HasLineItem(s.queue, id, side);
        var it :| it in s.queue && it.id == id && it.LineItem? && it.side == side;
        assert ItemOk(s.registry, s.methods.Keys, it, loading);
      }
      assert e.Waiting(Enter) == e.enterDeferred && e.Waiting(Exit) == e.exitDeferred;
      assert e.ClassOf(Enter) == e.cls && e.ClassOf(Exit) == e.exitCls;
    }
  }

  lemma {:induction false} RetiredAdvances(s: State, s': State, id: Id, distinct: bool, name: string)
    requires Retired(s, s', {id}, distinct) && (id in s.registry ==> Concerns(s.registry[id], name))
    ensures Advances(s.registry, s'.registry, name) && s'.methods.Keys == s.methods.Keys
  {
    assert s'.registry == s.registry - {id};
  }

  // ----- a queued method -----

  lemma {:induction false} QueuedMethod(s: State, p: nat, distinct: bool, loading: Option<string>)
    requires Inv(s, distinct, loading) && p < |s.queue| && s.queue[p].MethodItem?
    ensures var it := s.queue[p];
            it.id in s.registry && s.registry[it.id] == MethodEntry(it.cls, it.sig, true) &&
            (it.cls in s.methods ==> FindSig(s.methods[it.cls], it.sig) == |s.methods[it.cls]|)
  {
    var it := s.queue[p];
    assert ItemOk(s.registry, s.methods.Keys, it, loading) && MethodAt(s.registry, it.id);
    if it.cls in s.methods {
      NoSuchRecord(s, it.cls, it.sig, distinct, loading);
    }
  }

  lemma {:induction false} DrainMethod(s: State, mid: State, s': State, p: nat, ok: bool, distinct: bool, name: string)
    requires Inv(s, distinct, Some(name)) && p < |s.queue| && s.queue[p].MethodItem? && s.queue[p].cls == name
    requires name in s.methods && name in s.lines && MethodAt(s.registry, s.queue[p].id)
    requires s.registry[s.queue[p].id] == MethodEntry(name, s.queue[p].sig, true)
    requires if ok then NowApplied(s, mid, name, s.queue[p].id, s.queue[p].slot)
             else mid == s.(registry := s.registry - {s.queue[p].id}, slots := Freed(s.slots, s.queue[p].slot))
    requires s' == mid.(queue := Without(s.queue, p))
    ensures Inv(s', distinct, Some(name)) && DrainStep(s, s', p, name)
  {
    hide Inv, Wanted, Freed, Retired;
    var it := s.queue[p];
    if ok {
      assert s' == ApplyMethod(s, p);
      ApplyMethodKeeps(s, p, distinct, Some(name));
    } else {
      DeferredMethodFails(s, s', p, distinct, Some(name));
      RetiredAdvances(s, s', it.id, distinct, name);
    }
  }

  // ----- a queued side of a line -----

  /** The entry once this side is marked. */
  lemma {:induction false} QueuedLine(s: State, p: nat, distinct: bool, name: string)
    requires Inv(s, distinct, Some(name)) && p < |s.queue| && s.queue[p].LineItem? && s.queue[p].cls == name &&
             name in s.methods
    ensures LineAt(s.registry, s.queue[p].id) && s.methods.Keys == s.lines.Keys == s.installed.Keys
    ensures var e := s.registry[s.queue[p].id].Applied(s.queue[p].side);
            && Advanced(e, name) == Advanced(s.registry[s.queue[p].id], name) && Concerns(e, name)
            && (e.Ready() ==> e.cls in s.methods && e.exitCls in s.methods && NoneOf(s.lines, s.queue[p].id))
  {
    var it := s.queue[p];
    assert ItemOk(s.registry, s.methods.Keys, it, Some(name));
    var e := s.registry[it.id].Applied(it.side);
    if e.Ready() {
      forall c, r | c in s.lines && r in s.lines[c] ensures r.id != it.id {
        assert LineRecsKnown(s.registry, s.nextId, s.lines);
      }
      AppliedClassesOk(s.registry, s.methods.Keys, it.id, it.side);
      var reg' := s.registry[it.id := e];
      assert LineAt(reg', it.id);
    }
  }

  ghost predicate NoneOf(ls: Lines, id: Id) {
    forall c, r {:trigger r in ls[c]} :: c in ls && r in ls[c] ==> r.id != id
  }

  lemma {:induction false} DrainMark(s: State, s': State, p: nat, distinct: bool, name: string)
    requires Inv(s, distinct, Some(name)) && p < |s.queue| && s.queue[p].LineItem? && s.queue[p].cls == name &&
             name in s.methods
    requires LineAt(s.registry, s.queue[p].id) && !s.registry[s.queue[p].id].Applied(s.queue[p].side).Ready()
    requires s' == MarkLine(s, p)
    ensures Inv(s', distinct, Some(name)) && DrainStep(s, s', p, name)
  {
    QueuedLine(s, p, distinct, name);
    hide Inv;
    MarkLineKeeps(s, p, distinct, Some(name));
  }

  lemma {:induction false} DrainLine(s: State, mid: State, end: State, p: nat, ok: bool, distinct: bool, name: string)
    requires Inv(s, distinct, Some(name)) && p < |s.queue| && s.queue[p].LineItem? && s.queue[p].cls == name &&
             name in s.methods
    requires LineAt(s.registry, s.queue[p].id) && s.registry[s.queue[p].id].Applied(s.queue[p].side).Ready()
    requires s.methods.Keys == s.lines.Keys
    requires s.registry[s.queue[p].id].cls in s.methods && s.registry[s.queue[p].id].exitCls in s.methods
    requires var it := s.queue[p];
             mid.registry == s.registry[it.id := s.registry[it.id].Applied(it.side)] &&
             mid == s.(registry := mid.registry)
    requires LineNow(mid, end, s.registry[s.queue[p].id].Applied(s.queue[p].side), s.queue[p].id, s.queue[p].slot, ok)
    ensures Inv(end.(queue := Without(s.queue, p)), distinct, Some(name))
    ensures DrainStep(s, end.(queue := Without(s.queue, p)), p, name)
  {
    hide Inv, Freed, Retired, LineUndone, LineNow, DrainStep, AddLines;
    if ok {
      DrainLineOk(s, mid, end, p, distinct, name);
    } else {
      DrainLineFails(s, mid, end, p, distinct, name);
    }
  }

  lemma {:induction false} DrainLineOk(s: State, mid: State, end: State, p: nat, distinct: bool, name: string)
    requires Inv(s, distinct, Some(name)) && p < |s.queue| && s.queue[p].LineItem? && s.queue[p].cls == name &&
             name in s.methods
    requires LineAt(s.registry, s.queue[p].id) && s.registry[s.queue[p].id].Applied(s.queue[p].side).Ready()
    requires s.methods.Keys == s.lines.Keys
    requires s.registry[s.queue[p].id].cls in s.methods && s.registry[s.queue[p].id].exitCls in s.methods
    requires var it := s.queue[p];
             mid.registry == s.registry[it.id := s.registry[it.id].Applied(it.side)] &&
             mid == s.(registry := mid.registry)
    requires LineNow(mid, end, s.registry[s.queue[p].id].Applied(s.queue[p].side), s.queue[p].id, s.queue[p].slot, true)
    ensures Inv(end.(queue := Without(s.queue, p)), distinct, Some(name))
    ensures DrainStep(s, end.(queue := Without(s.queue, p)), p, name)
  {
    hide Inv, Wanted;
    var it, s' := s.queue[p], end.(queue := Without(s.queue, p));
    var e := s.registry[it.id].Applied(it.side);
    QueuedLine(s, p, distinct, name);
    ApplyLineKeeps(s, p, distinct, Some(name));
    assert e.(enterDeferred := false, exitDeferred := false) == e;
    assert s'.registry == s.registry[it.id := e];
    assert s' == ApplyLine(s, p);
  }

  lemma {:induction false} DrainLineFails(s: State, mid: State, end: State, p: nat, distinct: bool, name: string)
    requires Inv(s, distinct, Some(name)) && p < |s.queue| && s.queue[p].LineItem? && s.queue[p].cls == name &&
             name in s.methods
    requires LineAt(s.registry, s.queue[p].id) && s.registry[s.queue[p].id].Applied(s.queue[p].side).Ready()
    requires s.methods.Keys == s.lines.Keys
    requires s.registry[s.queue[p].id].cls in s.methods && s.registry[s.queue[p].id].exitCls in s.methods
    requires var it := s.queue[p];
             mid.registry == s.registry[it.id := s.registry[it.id].Applied(it.side)] &&
             mid == s.(registry := mid.registry)
    requires LineNow(mid, end, s.registry[s.queue[p].id].Applied(s.queue[p].side), s.queue[p].id, s.queue[p].slot,
                     false)
    ensures Inv(end.(queue := Without(s.queue, p)), distinct, Some(name))
    ensures DrainStep(s, end.(queue := Without(s.queue, p)), p, name)
  {
    hide Inv, Freed, Retired, LineUndone, AddLines, Wanted;
    var it := s.queue[p];
    QueuedLine(s, p, distinct, name);
    DeferredLineFails(s, mid, end, p, distinct, Some(name));
    RetiredAdvances(s, end.(queue := Without(s.queue, p)), it.id, distinct, name);
    UndoneIds(mid, end, s.registry[it.id].Applied(it.side), it.id, it.slot);
  }

  lemma {:induction false} UndoneIds(s: State, s': State, e: Entry, id: Id, slot: nat)
    requires e.LineEntry? && e.cls in s.methods && e.exitCls in s.methods && s.methods.Keys == s.lines.Keys &&
             LineUndone(s, s', e, id, slot)
    ensures s'.nextId == s.nextId
  {
  }

  // ----- the class is there -----

  datatype Loading = NotLoaded | NewClass | Duplicate

  /** How a loaded class enters the list of classes. */
  ghost predicate ClassPlaced(s: State, s': State, name: string, r: Loading) {
    match r
    case NotLoaded => s' == s
    case NewClass => name !in s.methods && s' == s.(methods := s.methods[name := []], lines := s.lines[name := []],
                                                    installed := s.installed[name := {}])
    case Duplicate => name in s.methods && s' == s.(installed := s.installed[name := {}])
  }

  lemma {:induction false} PlacedByName(s: State, s': State, name: string, r: Loading)
    requires ClassPlaced(s, s', name, r)
    ensures r == NotLoaded ==> s' == s
    ensures (r == NewClass ==> name !in s.methods) && (r == Duplicate ==> name in s.methods)
  {
  }

  /** A class of a new name has no records; what waits for it may now be applied. */
  lemma {:induction false} ClassAdded(s: State, s': State, name: string, distinct: bool)
    requires Inv(s, distinct, None) && name !in s.methods
    requires s' == s.(methods := s.methods[name := []], lines := s.lines[name := []],
                      installed := s.installed[name := {}])
    ensures Inv(s', distinct, Some(name)) && name in s'.methods && s'.methods.Keys == s.methods.Keys + {name}
  {
    SameKeys(s, distinct, None);
    hide Base, Full;
    ClassAddedBase(s, s', name);
    if distinct {
      ClassAddedFull(s, s', name);
    }
  }

  lemma {:induction false} ClassAddedBase(s: State, s': State, name: string)
    requires Base(s, None) && name !in s.methods
    requires s' == s.(methods := s.methods[name := []], lines := s.lines[name := []],
                      installed := s.installed[name := {}])
    ensures Base(s', Some(name))
  {
    hide DeferredAreQueued, OnePerMethod, OneSlotEach, QueueOk, MethodsOk, MethodsInstalled, LineRecsKnown;
    ClassAddedQueue(s.registry, s.queue, s.methods.Keys, name);
    ClassAddedMethods(s.registry, s.methods, s.installed, name);
    ClassAddedLines(s.registry, s.nextId, s.lines, name);
    assert s'.methods.Keys == s.methods.Keys + {name};
  }

  lemma {:induction false} ClassAddedQueue(reg: Registry, q: seq<Item>, loaded: set<string>, name: string)
    requires QueueOk(reg, q, loaded, None)
    ensures QueueOk(reg, q, loaded + {name}, Some(name))
  {
    forall it | it in q ensures ItemOk(reg, loaded + {name}, it, Some(name)) {
      assert ItemOk(reg, loaded, it, None);
    }
  }

  lemma {:induction false} ClassAddedMethods(reg: Registry, ms: Methods, installed: Installed, name: string)
    requires MethodsOk(reg, ms) && MethodsInstalled(ms, installed) && name !in ms
    ensures MethodsOk(reg, ms[name := []]) && MethodsInstalled(ms[name := []], installed[name := {}])
  {
    assert forall c, id :: HasMethodRec(ms, c, id) ==> HasMethodRec(ms[name := []], c, id);
  }

  lemma {:induction false} ClassAddedLines(reg: Registry, nextId: Id, ls: Lines, name: string)
    requires LineRecsKnown(reg, nextId, ls)
    ensures LineRecsKnown(reg, nextId, ls[name := []])
  {
  }

  lemma {:induction false} ClassAddedFull(s: State, s': State, name: string)
    requires Full(s) && name !in s.lines && name !in s.methods
    requires s' == s.(methods := s.methods[name := []], lines := s.lines[name := []],
                      installed := s.installed[name := {}])
    ensures Full(s')
  {
    hide SlotsOk, DistinctLines, ItemSlots;
    assert forall c, id, side :: HasLineRec(s.lines, c, id, side) ==> HasLineRec(s'.lines, c, id, side);
    forall c | c in s'.lines ensures OneRecPerSide(s'.lines[c]) {
      if c != name { assert OneRecPerSide(s.lines[c]); }
    }
  }

  lemma {:induction false} ReloadAdvances(s: State, s': State, gone: set<Id>, name: string, distinct: bool)
    requires Inv(s, distinct, None) && name in s.methods && name in s.lines && Retired(s, s', gone, distinct) &&
             s'.nextId == s.nextId
    requires forall id :: id in gone && id in s.registry ==> Concerns(s.registry[id], name)
    requires s'.queue == s.queue
    ensures Draining(s, s', name)
  {
    assert s'.registry == s.registry - gone;
  }

  lemma {:induction false} DrainEnds(s: State, from: State, s': State, name: string, distinct: bool)
    requires Draining(from, s', name) && Inv(s', distinct, Some(name)) && forall it :: it in s'.queue ==> it.cls != name
    requires from.registry == s.registry && from.queue == s.queue && from.nextId == s.nextId &&
             from.methods.Keys == s.methods.Keys + {name}
    ensures Inv(s', distinct, None) && LoadedOutcome(s, s', name) && Successor(s, s')
  {
    NoneWaits(s', distinct, name);
    forall id | id in s'.registry ensures s'.registry[id] == Advanced(s.registry[id], name) {
      DrainedAdvanced(s', name, id, None);
    }
  }

  lemma {:induction false} DrainStarts(s: State, name: string)
    ensures Draining(s, s, name)
  {
  }

  lemma {:induction false} StepShortens(s: State, s': State, p: nat, name: string)
    requires p < |s.queue| && DrainStep(s, s', p, name)
    ensures |s'.queue| < |s.queue| && s'.methods.Keys == s.methods.Keys
  {
  }

  lemma {:induction false} NowLeavesQueue(s: State, s': State, cls: string, id: Id, slot: nat, ok: bool)
    requires cls in s.methods && cls in s.lines && MethodAt(s.registry, id)
    requires if ok then NowApplied(s, s', cls, id, slot) else s'.queue == s.queue
    ensures s'.queue == s.queue
  {
  }

  lemma {:induction false} LineNowLeavesQueue(s: State, s': State, e: Entry, id: Id, slot: nat, ok: bool)
    requires e.LineEntry? && e.cls in s.methods && e.exitCls in s.methods && s.methods.Keys == s.lines.Keys
    requires LineNow(s, s', e, id, slot, ok)
    ensures s'.queue == s.queue
  {
  }

  lemma {:induction false} DrainHasClass(s: State, s': State, name: string)
    requires Draining(s, s', name) && name in s.methods
    ensures name in s'.methods
  {
  }

  lemma {:induction false} DrainsTwice(s: State, mid: State, s': State, name: string)
    requires Draining(s, mid, name) && Draining(mid, s', name)
    ensures Draining(s, s', name)
  {
    forall id | id in s.registry && id !in s'.registry ensures Concerns(s.registry[id], name) {
      if id in mid.registry {
        AdvancedConcerns(mid.registry[id], s.registry[id], name);
      }
    }
  }
}
