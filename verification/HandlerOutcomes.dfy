/**
 How the requests the handler serves can end, each as a relation between the
 state before and the state after, and why each keeps the parts in agreement
 and gives out no number twice.
 */
module HandlerOutcomes {
  import opened Prelude
  import opened HandlerState
  import opened HandlerLemmas
  import opened RetireLemmas
  import opened RollbackLemmas

  datatype Status = Ok | Double | Error | Deferred

  /** How a request for a method ends. An error leaves everything but numbers
      used up and inactive slots as it was; a second request for the same method
      changes nothing and answers the first one's number. */
  ghost predicate MethodOutcome(s: State, s': State, cls: string, sig: string, status: Status, id: Id, slot: int) {
    && (status == Double <==> !NewMethod(s.registry, cls, sig))
    && match status
       case Double => s' == s && MethodAt(s.registry, id) && s.registry[id].cls == cls && s.registry[id].sig == sig
       case Error => OnlyUsedUp(s, s')
       case Deferred =>
         && cls !in s.methods && id == s.nextId && slot >= 0 && Created(s.slots, s'.slots, slot, id)
         && s' == AddDeferred(s, MethodEntry(cls, sig, true), [MethodItem(id, slot, cls, sig)], s'.slots)
       case Ok =>
         && cls in s.methods && cls in s.lines && id == s.nextId && slot >= 0 && Created(s.slots, s'.slots, slot, id)
         && s' == NewMethodApplied(s, cls, sig, s'.slots, slot)
  }

  /** How a new method entry with a slot of its own is placed. */
  ghost predicate Placed(s: State, s': State, cls: string, sig: string, id: Id, slot: nat, status: Status) {
    match status
    case Double => false
    case Error => s' == s.(registry := s.registry - {id}, slots := Freed(s.slots, slot))
    case Deferred => cls !in s.methods && s' == s.(queue := s.queue + [MethodItem(id, slot, cls, sig)])
    case Ok => cls in s.methods && cls in s.lines && MethodAt(s.registry, id) && NowApplied(s, s', cls, id, slot)
  }

  /** The record made, the class reinstalled, the entry no longer deferred. */
  ghost predicate NowApplied(s: State, s': State, cls: string, id: Id, slot: nat)
    requires cls in s.methods && cls in s.lines && MethodAt(s.registry, id)
  {
    var e, ms := s.registry[id], s.methods[cls] + [MethodRec(s.registry[id].sig, slot, id)];
    s' == s.(registry := s.registry[id := e.(deferred := false)],
             methods := s.methods[cls := ms],
             installed := s.installed[cls := Wanted(ms, s.lines[cls])])
  }

  /** Only a number, and slots nobody owns, have been used up. */
  ghost predicate OnlyUsedUp(s: State, s': State) {
    s' == s.(nextId := s'.nextId, slots := s'.slots) && s.nextId <= s'.nextId && SameActive(s.slots, s'.slots)
  }

  predicate SameInstrument(a: Entry, b: Entry) {
    if a.MethodEntry? then b.MethodEntry? && b == a.(deferred := b.deferred)
    else b.LineEntry? && b == a.(enterDeferred := b.enterDeferred, exitDeferred := b.exitDeferred)
  }

  /** Numbers are never given out twice: what is live later was live before as
      the same instrument, or has a number that was not yet given out. */
  ghost predicate Successor(s: State, s': State) {
    && s.nextId <= s'.nextId
    && forall id :: id in s'.registry ==>
       id >= s.nextId || (id in s.registry && SameInstrument(s.registry[id], s'.registry[id]))
  }

  lemma {:induction false} UsedUp(s: State, s': State, distinct: bool)
    requires Inv(s, distinct, None) && s.nextId <= s'.nextId && SameActive(s.slots, s'.slots)
    requires s'.registry == s.registry && s'.queue == s.queue && s'.methods == s.methods && s'.lines == s.lines &&
             s'.installed == s.installed
    ensures Inv(s', distinct, None) && OnlyUsedUp(s, s') && Successor(s, s')
  {
    hide Inv;
    BurnKeeps(s, s', distinct, None);
  }

  lemma {:induction false} MethodDouble(s: State, cls: string, sig: string, id: Id, slot: int, distinct: bool)
    requires MethodAt(s.registry, id) && s.registry[id].cls == cls && s.registry[id].sig == sig
    ensures MethodOutcome(s, s, cls, sig, Double, id, slot) && Successor(s, s)
  {
  }

  lemma {:induction false} MethodError(s: State, s': State, cls: string, sig: string, id: Id, slot: int, distinct: bool)
    requires Inv(s, distinct, None) && NewMethod(s.registry, cls, sig)
    requires s.nextId <= s'.nextId && (s'.slots == s.slots || SameActive(s.slots, s'.slots))
    requires s'.registry == s.registry ||
             s'.registry == s.registry[s.nextId := MethodEntry(cls, sig, true)] - {s.nextId}
    requires s'.queue == s.queue && s'.methods == s.methods && s'.lines == s.lines && s'.installed == s.installed
    ensures Inv(s', distinct, None) && MethodOutcome(s, s', cls, sig, Error, id, slot) && Successor(s, s')
  {
    assert s'.registry == s.registry;
    UsedUp(s, s', distinct);
  }

  lemma {:induction false} MethodDeferred(s: State, mid: State, s': State, cls: string, sig: string, slot: nat,
                                          distinct: bool)
    requires Inv(s, distinct, None) && cls !in s.methods && NewMethod(s.registry, cls, sig)
    requires Created(s.slots, s'.slots, slot, s.nextId)
    requires mid == s.(registry := s.registry[s.nextId := MethodEntry(cls, sig, true)], nextId := s.nextId + 1,
                       slots := mid.slots)
    requires s' == mid.(queue := mid.queue + [MethodItem(s.nextId, slot, cls, sig)])
    ensures Inv(s', distinct, None) && MethodOutcome(s, s', cls, sig, Deferred, s.nextId, slot) && Successor(s, s')
  {
    hide Inv;
    MethodItemsFor(s, cls, sig, slot, None);
    AddDeferredKeeps(s, MethodEntry(cls, sig, true), [MethodItem(s.nextId, slot, cls, sig)], s'.slots, slot, distinct,
                     None);
  }

  lemma {:induction false} MethodApplied(s: State, mid: State, s': State, cls: string, sig: string, slot: nat,
                                         distinct: bool)
    requires Inv(s, distinct, None) && cls in s.methods && cls in s.lines && NewMethod(s.registry, cls, sig)
    requires Created(s.slots, mid.slots, slot, s.nextId)
    requires mid == s.(registry := s.registry[s.nextId := MethodEntry(cls, sig, true)], nextId := s.nextId + 1,
                       slots := mid.slots)
    requires NowApplied(mid, s', cls, s.nextId, slot)
    ensures Inv(s', distinct, None) && MethodOutcome(s, s', cls, sig, Ok, s.nextId, slot) && Successor(s, s')
  {
    hide Inv, Wanted;
    NewMethodAppliedKeeps(s, cls, sig, s'.slots, slot, distinct);
    assert s'.registry == s.registry[s.nextId := MethodEntry(cls, sig, false)];
    assert s' == NewMethodApplied(s, cls, sig, s'.slots, slot);
  }

  lemma {:induction false} EmptyInv()
    ensures Inv(State(map[], 1, [], map[], map[], [], map[]), true, None)
  {
  }

  lemma {:induction false} MethodPlaced(s: State, mid: State, s': State, cls: string, sig: string, slot: nat,
                                        status: Status, distinct: bool)
    requires Inv(s, distinct, None) && NewMethod(s.registry, cls, sig)
    requires Created(s.slots, mid.slots, slot, s.nextId)
    requires mid == s.(registry := s.registry[s.nextId := MethodEntry(cls, sig, true)], nextId := s.nextId + 1,
                       slots := mid.slots)
    requires Placed(mid, s', cls, sig, s.nextId, slot, status)
    ensures Inv(s', distinct, None) && MethodOutcome(s, s', cls, sig, status, s.nextId, slot) && Successor(s, s')
  {
    hide Inv, Wanted, Created, Freed, NowApplied, NewMethod, SameActive, MethodOutcome, Successor;
    if status == Error {
      CreateThenFree(s.slots, mid.slots, slot, s.nextId);
      MethodError(s, s', cls, sig, s.nextId, slot, distinct);
    } else if status == Deferred {
      MethodDeferred(s, mid, s', cls, sig, slot, distinct);
    } else {
      MethodApplied(s, mid, s', cls, sig, slot, distinct);
    }
  }

  lemma {:induction false} NewMethodNoRecord(s: State, cls: string, sig: string, distinct: bool)
    requires Inv(s, distinct, None) && NewMethod(s.registry, cls, sig)
    ensures cls in s.methods ==> FindSig(s.methods[cls], sig) == |s.methods[cls]|
  {
    hide Inv;
    if cls in s.methods {
      NoSuchRecord(s, cls, sig, distinct, None);
    }
  }

  lemma {:induction false} AddThenDropSig(ms: Methods, cls: string, r: MethodRec)
    requires cls in ms && FindSig(ms[cls], r.sig) == |ms[cls]|
    ensures DropSig(ms[cls] + [r], r.sig) == ms[cls]
    ensures ms[cls := ms[cls] + [r]][cls := ms[cls]] == ms
  {
    var all := ms[cls] + [r];
    var p := FindSig(all, r.sig);
    assert all[|ms[cls]|] == r;
    assert forall q :: 0 <= q < |ms[cls]| ==> all[q] == ms[cls][q];
    assert p == |ms[cls]|;
    assert Without(all, p) == ms[cls];
  }

  // ----- line instruments -----

  /** The sides whose class is not loaded wait; within one class the exit side never does. */
  function LaterEntry(e: Entry, enterLoaded: bool, exitLoaded: bool): Entry
    requires e.LineEntry?
  {
    e.(enterDeferred := !enterLoaded, exitDeferred := !exitLoaded && e.cls != e.exitCls)
  }

  function LaterItems(e: Entry, id: Id, slot: nat, enterLoaded: bool, exitLoaded: bool): seq<Item>
    requires e.LineEntry?
  {
    (if enterLoaded then [] else [LineItem(id, slot, e.cls, e.line, Enter)]) +
    (if exitLoaded || e.cls == e.exitCls then [] else [LineItem(id, slot, e.exitCls, e.exitLine, Exit)])
  }

  /** How a request for a line ends. After an error the numbers used up,
      inactive slots and installed probes nobody has a record for may differ;
      the line records are as before unless some record sat on the same lines. */
  ghost predicate LineOutcome(s: State, s': State, e: Entry, status: Status, id: Id, slot: int)
    requires e.LineEntry? && e.enterDeferred && e.exitDeferred && s.methods.Keys == s.lines.Keys
  {
    var enterLoaded, exitLoaded := e.cls in s.methods, e.exitCls in s.methods;
    match status
    case Double => false
    case Error =>
      && s' == s.(nextId := s'.nextId, slots := s'.slots, lines := s'.lines, installed := s'.installed)
      && s.nextId <= s'.nextId && SameActive(s.slots, s'.slots) && (Vacant(s.lines, e) ==> s'.lines == s.lines)
    case Deferred =>
      && !(enterLoaded && exitLoaded) && id == s.nextId && slot >= 0 && Created(s.slots, s'.slots, slot, id)
      && s' == AddDeferred(s, LaterEntry(e, enterLoaded, exitLoaded), LaterItems(e, id, slot, enterLoaded, exitLoaded),
                           s'.slots)
    case Ok =>
      && enterLoaded && exitLoaded && id == s.nextId && slot >= 0 && Created(s.slots, s'.slots, slot, id)
      && s' == NewLineApplied(s, e, s'.slots, slot)
  }

  lemma {:induction false} LineItemsFor(s: State, e: Entry, slot: nat)
    requires e.LineEntry? && !(e.cls in s.methods && e.exitCls in s.methods)
    ensures var enterLoaded, exitLoaded := e.cls in s.methods, e.exitCls in s.methods;
            ItemsFor(s, LaterEntry(e, enterLoaded, exitLoaded), LaterItems(e, s.nextId, slot, enterLoaded, exitLoaded),
                     slot, None)
  {
    var enterLoaded, exitLoaded := e.cls in s.methods, e.exitCls in s.methods;
    var e', items := LaterEntry(e, enterLoaded, exitLoaded), LaterItems(e, s.nextId, slot, enterLoaded, exitLoaded);
    if !enterLoaded {
      assert items[0] == LineItem(s.nextId, slot, e.cls, e.line, Enter) && items[0] in items;
    }
    if e'.exitDeferred {
      assert items[|items| - 1] == LineItem(s.nextId, slot, e.exitCls, e.exitLine, Exit) && items[|items| - 1] in items;
    }
    forall side: Side | e'.Waiting(side) ensures HasLineItem(items, s.nextId, side) {
    }
  }

  lemma {:induction false} NumberIsNew(s: State, distinct: bool, loading: Option<string>)
    requires Inv(s, distinct, loading)
    ensures s.nextId > 0 && s.nextId !in s.registry
    ensures forall it :: it in s.queue ==> it.id != s.nextId
    ensures forall c, r {:trigger r in s.lines[c]} :: c in s.lines && r in s.lines[c] ==> r.id != s.nextId
  {
    forall it | it in s.queue ensures it.id != s.nextId {
      assert ItemOk(s.registry, s.methods.Keys, it, loading);
    }
  }

  // ----- records made, or made and dropped again -----

  ghost predicate Populated(s: State, s': State, e: Entry, id: Id, slot: nat, ok: bool)
    requires e.LineEntry? && e.cls in s.lines && e.exitCls in s.lines
  {
    if ok then s' == s.(lines := AddLines(s.lines, e, id, slot))
    else s' == s ||
         s' == s.(lines := s.lines[e.cls := DropLine(s.lines[e.cls] + [LineRec(e.line, slot, id, Enter)], e.line)])
  }

  ghost predicate Performed(s: State, s': State, e: Entry, id: Id, slot: nat, ok: bool)
    requires e.LineEntry? && e.cls in s.methods && e.exitCls in s.methods && s.methods.Keys == s.lines.Keys
  {
    var first := Reinstalled(s.installed, s.methods, s.lines, e.cls);
    if ok then
      s' == s.(registry := s.registry[id := e.(enterDeferred := false, exitDeferred := false)],
               installed := Reinstalled(first, s.methods, s.lines, e.exitCls))
    else
      && s' == s.(registry := s.registry - {id}, slots := Freed(s.slots, slot), lines := DropLines(s.lines, e),
                  installed := s'.installed)
      && (s'.installed == s.installed || s'.installed == first)
  }

  lemma {:induction false} PerformedBoth(s: State, s': State, e: Entry, id: Id, slot: nat, once: Installed,
                                         twice: Installed)
    requires e.LineEntry? && e.cls in s.methods && e.exitCls in s.methods && s.methods.Keys == s.lines.Keys
    requires once == Reinstalled(s.installed, s.methods, s.lines, e.cls)
    requires twice == if e.cls == e.exitCls then once else Reinstalled(once, s.methods, s.lines, e.exitCls)
    requires s' == s.(registry := s.registry[id := e.Applied(Enter)][id := e.Applied(Enter).Applied(Exit)],
                      installed := twice)
    ensures Performed(s, s', e, id, slot, true)
  {
    hide Wanted;
    assert s'.registry == s.registry[id := e.(enterDeferred := false, exitDeferred := false)];
    assert twice == Reinstalled(once, s.methods, s.lines, e.exitCls);
  }

  lemma {:induction false} PerformedNot(s: State, s': State, e: Entry, id: Id, slot: nat)
    requires e.LineEntry? && e.cls in s.methods && e.exitCls in s.methods && s.methods.Keys == s.lines.Keys
    requires s'.installed == s.installed || s'.installed == Reinstalled(s.installed, s.methods, s.lines, e.cls)
    requires var l1 := s.lines[e.cls := DropLine(s.lines[e.cls], e.line)];
             s' == s.(registry := s.registry - {id}, slots := Freed(s.slots, slot),
                      lines := l1[e.exitCls := DropLine(l1[e.exitCls], e.exitLine)], installed := s'.installed)
    ensures Performed(s, s', e, id, slot, false)
  {
    hide Wanted, DropLine, Freed;
  }

  /** Both records made, both classes reinstalled, the entry ready; or all of it undone. */
  ghost predicate LineNow(s: State, s': State, e: Entry, id: Id, slot: nat, ok: bool)
    requires e.LineEntry? && e.cls in s.methods && e.exitCls in s.methods && s.methods.Keys == s.lines.Keys
  {
    var ls := AddLines(s.lines, e, id, slot);
    if ok then
      s' == s.(registry := s.registry[id := e.(enterDeferred := false, exitDeferred := false)], lines := ls,
               installed := Reinstalled(Reinstalled(s.installed, s.methods, ls, e.cls), s.methods, ls, e.exitCls))
    else LineUndone(s, s', e, id, slot)
  }

  lemma {:induction false} RecordsMade(s: State, s': State, e: Entry, id: Id, slot: nat, first: Lines, both: bool)
    requires e.LineEntry? && e.cls in s.lines && e.exitCls in s.lines
    requires first == s.lines[e.cls := s.lines[e.cls] + [LineRec(e.line, slot, id, Enter)]]
    requires s' == s.(lines := if both then first[e.exitCls := first[e.exitCls] + [LineRec(e.exitLine, slot, id, Exit)]]
                               else first[e.cls := DropLine(first[e.cls], e.line)])
    ensures Populated(s, s', e, id, slot, both)
  {
    hide DropLine;
    if !both {
      assert s'.lines == s.lines[e.cls := DropLine(first[e.cls], e.line)];
    }
  }

  lemma {:induction false} NotMade(s: State, e: Entry, id: Id, slot: nat)
    requires e.LineEntry? && e.cls in s.lines && e.exitCls in s.lines
    ensures Populated(s, s, e, id, slot, false)
  {
  }

  lemma {:induction false} PopulatedLeaves(s: State, s': State, e: Entry, id: Id, slot: nat, ok: bool)
    requires e.LineEntry? && e.cls in s.lines && e.exitCls in s.lines && Populated(s, s', e, id, slot, ok)
    ensures s'.lines.Keys == s.lines.Keys && s' == s.(lines := s'.lines)
  {
  }

  lemma {:induction false} NotPopulated(s: State, mid: State, s': State, e: Entry, id: Id, slot: nat)
    requires e.LineEntry? && e.cls in s.methods && e.exitCls in s.methods && s.methods.Keys == s.lines.Keys
    requires forall c, r {:trigger r in s.lines[c]} :: c in s.lines && r in s.lines[c] ==> r.id != id
    requires Populated(s, mid, e, id, slot, false)
    requires s' == mid.(registry := mid.registry - {id}, slots := Freed(mid.slots, slot))
    ensures LineNow(s, s', e, id, slot, false)
  {
    hide DropLine, Vacant, Freed;
    AddThenDropFirst(s.lines, e, id, slot);
    if Vacant(s.lines, e) {
      assert s'.lines == s.lines;
    }
  }

  lemma {:induction false} PopulatedThenPerformed(s: State, mid: State, s': State, e: Entry, id: Id, slot: nat,
                                                  ok: bool)
    requires e.LineEntry? && e.cls in s.methods && e.exitCls in s.methods &&
             s.methods.Keys == s.lines.Keys == mid.lines.Keys
    requires s.methods == mid.methods
    requires forall c, r {:trigger r in s.lines[c]} :: c in s.lines && r in s.lines[c] ==> r.id != id
    requires Populated(s, mid, e, id, slot, true) && Performed(mid, s', e, id, slot, ok)
    ensures LineNow(s, s', e, id, slot, ok)
  {
    hide DropLine, DropLines, Vacant, Freed, Wanted;
    if !ok {
      AddThenDropLines(s.lines, e, id, slot);
      AddLinesContents(s.lines, e, id, slot);
      DropLinesOnlyDrops(mid.lines, e);
    }
  }

  // ----- a new line instrument -----

  /** How a new line entry with a slot of its own is placed. */
  ghost predicate LinePlaced(s: State, s': State, e: Entry, id: Id, slot: nat, status: Status)
    requires e.LineEntry? && s.methods.Keys == s.lines.Keys
  {
    var enterLoaded, exitLoaded := e.cls in s.methods, e.exitCls in s.methods;
    match status
    case Double => false
    case Error =>
      if enterLoaded && exitLoaded then LineUndone(s, s', e, id, slot)
      else s' == s.(registry := s.registry - {id}, slots := Freed(s.slots, slot))
    case Deferred =>
      && !(enterLoaded && exitLoaded)
      && s' == s.(registry := s.registry[id := LaterEntry(e, enterLoaded, exitLoaded)],
                  queue := s.queue + LaterItems(e, id, slot, enterLoaded, exitLoaded))
    case Ok => enterLoaded && exitLoaded && LineNow(s, s', e, id, slot, true)
  }

  /** The state once the entry and its slot exist. */
  ghost predicate LineEntered(s: State, mid: State, e: Entry) {
    mid == s.(registry := s.registry[s.nextId := e], nextId := s.nextId + 1, slots := mid.slots)
  }

  lemma {:induction false} LineRequestKeeps(s: State, mid: State, s': State, e: Entry, slot: nat, status: Status,
                                            distinct: bool)
    requires Inv(s, distinct, None) && s.methods.Keys == s.lines.Keys
    requires e.LineEntry? && e.enterDeferred && e.exitDeferred && LineEntered(s, mid, e)
    requires Created(s.slots, mid.slots, slot, s.nextId) && LinePlaced(mid, s', e, s.nextId, slot, status)
    ensures Inv(s', distinct && Apart(s.registry, e), None)
    ensures LineOutcome(s, s', e, status, s.nextId, slot) && Successor(s, s')
  {
    hide Inv, Created, Freed, LineUndone, LineNow, LineOutcome, Successor, Apart, SameActive;
    if status == Error {
      if e.cls in s.methods && e.exitCls in s.methods {
        LineRequestUndone(s, mid, s', e, slot, distinct);
      } else {
        LineRequestFailed(s, mid, s', e, slot, distinct);
      }
    } else if status == Deferred {
      LineRequestDeferred(s, mid, s', e, slot, distinct);
    } else {
      LineRequestApplied(s, mid, s', e, slot, distinct);
    }
  }

  lemma {:induction false} Weaker(s: State, distinct: bool, fewer: bool, loading: Option<string>)
    requires Inv(s, distinct, loading) && (fewer ==> distinct)
    ensures Inv(s, fewer, loading)
  {
  }

  lemma {:induction false} LineRequestFailed(s: State, mid: State, s': State, e: Entry, slot: nat, distinct: bool)
    requires Inv(s, distinct, None) && s.methods.Keys == s.lines.Keys
    requires e.LineEntry? && e.enterDeferred && e.exitDeferred && LineEntered(s, mid, e)
    requires Created(s.slots, mid.slots, slot, s.nextId)
    requires s' == mid.(registry := mid.registry - {s.nextId}, slots := Freed(mid.slots, slot))
    ensures Inv(s', distinct && Apart(s.registry, e), None)
    ensures LineOutcome(s, s', e, Error, s.nextId, slot) && Successor(s, s')
  {
    hide Inv, Created, Freed, SameActive, Vacant, Apart;
    NumberIsNew(s, distinct, None);
    assert s'.registry == s.registry;
    CreateThenFree(s.slots, mid.slots, slot, s.nextId);
    BurnKeeps(s, s', distinct, None);
    Weaker(s', distinct, distinct && Apart(s.registry, e), None);
  }

  lemma {:induction false} LineRequestUndone(s: State, mid: State, s': State, e: Entry, slot: nat, distinct: bool)
    requires Inv(s, distinct, None) && s.methods.Keys == s.lines.Keys && e.LineEntry? && e.enterDeferred &&
             e.exitDeferred
    requires e.cls in s.methods && e.exitCls in s.methods && LineEntered(s, mid, e)
    requires Created(s.slots, mid.slots, slot, s.nextId) && LineUndone(mid, s', e, s.nextId, slot)
    ensures Inv(s', distinct && Apart(s.registry, e), None)
    ensures LineOutcome(s, s', e, Error, s.nextId, slot) && Successor(s, s')
  {
    hide Inv, Created, Freed, SameActive, Vacant, Apart;
    var id, d := s.nextId, distinct && Apart(s.registry, e);
    NumberIsNew(s, distinct, None);
    assert s'.registry == s.registry;
    CreateThenFree(s.slots, mid.slots, slot, id);
    UndoneRetires(s, mid, s', e, id, slot, distinct);
    if d {
      DistinctIsVacant(s, e);
    }
    Weaker(s, distinct, d, None);
    RetiredKeeps(s, s', {}, d, None);
  }

  lemma {:induction false} DistinctIsVacant(s: State, e: Entry)
    requires Inv(s, true, None) && e.LineEntry? && Apart(s.registry, e)
    ensures Vacant(s.lines, e)
  {
    ApartIsVacant(s, e);
  }

  lemma {:induction false} UndoneRetires(s: State, mid: State, s': State, e: Entry, id: Id, slot: nat, distinct: bool)
    requires Inv(s, distinct, None) && s.methods.Keys == s.lines.Keys && e.LineEntry? && id == s.nextId
    requires e.cls in s.methods && e.exitCls in s.methods && LineEntered(s, mid, e) && LineUndone(mid, s', e, id, slot)
    requires s'.registry == s.registry && SameActive(s.slots, s'.slots)
    ensures Retired(s, s', {}, distinct && Vacant(s.lines, e))
  {
    hide SlotsOk, QueueOk, MethodsOk, DeferredAreQueued, OnePerMethod, Wanted, Vacant, SameActive, Freed, LinesOk,
         MethodsInstalled, LinesInstalled, LineRecsKnown;
    RetireNothing(s);
    UndoneInstalled(mid, s', e, id, slot, distinct);
    FewerKnown(s.registry, s.nextId, s'.nextId, s.lines, s'.lines, id);
    assert s.registry - {id} == s.registry;
  }

  lemma {:induction false} LineRequestDeferred(s: State, mid: State, s': State, e: Entry, slot: nat, distinct: bool)
    requires Inv(s, distinct, None) && s.methods.Keys == s.lines.Keys
    requires e.LineEntry? && e.enterDeferred && e.exitDeferred && LineEntered(s, mid, e)
    requires Created(s.slots, mid.slots, slot, s.nextId) && LinePlaced(mid, s', e, s.nextId, slot, Deferred)
    ensures Inv(s', distinct && Apart(s.registry, e), None)
    ensures LineOutcome(s, s', e, Deferred, s.nextId, slot) && Successor(s, s')
  {
    hide Inv, Created, Apart, OneTaskEach, OneSlotEach;
    var enterLoaded, exitLoaded := e.cls in s.methods, e.exitCls in s.methods;
    var e', items := LaterEntry(e, enterLoaded, exitLoaded), LaterItems(e, s.nextId, slot, enterLoaded, exitLoaded);
    LineItemsFor(s, e, slot);
    AddDeferredKeeps(s, e', items, mid.slots, slot, distinct, None);
    ApartIgnoresFlags(s.registry, e, e');
    assert s'.registry == s.registry[s.nextId := e'];
    assert s' == AddDeferred(s, e', items, mid.slots);
  }

  lemma {:induction false} LineRequestApplied(s: State, mid: State, s': State, e: Entry, slot: nat, distinct: bool)
    requires Inv(s, distinct, None) && s.methods.Keys == s.lines.Keys
    requires e.LineEntry? && e.enterDeferred && e.exitDeferred && LineEntered(s, mid, e)
    requires Created(s.slots, mid.slots, slot, s.nextId) && LinePlaced(mid, s', e, s.nextId, slot, Ok)
    ensures Inv(s', distinct && Apart(s.registry, e), None)
    ensures LineOutcome(s, s', e, Ok, s.nextId, slot) && Successor(s, s')
  {
    hide Inv, Created, Apart, Wanted;
    NewLineAppliedKeeps(s, e, mid.slots, slot, distinct);
    assert s'.registry == s.registry[s.nextId := e.(enterDeferred := false, exitDeferred := false)];
    assert s' == NewLineApplied(s, e, mid.slots, slot);
  }

  // ----- an instrument that waited is taken away -----

  ghost predicate StillWaits(reg: Registry, id: Id) {
    id in reg && if reg[id].MethodEntry? then reg[id].deferred else !reg[id].Ready()
  }

  /** An instrument that waits has no records. */
  lemma {:induction false} WaitingHasNoRecords(s: State, id: Id, loading: Option<string>)
    requires Base(s, loading) && StillWaits(s.registry, id)
    ensures Retire(s, {id}).methods == s.methods && Retire(s, {id}).lines == s.lines
  {
    hide Drop, QueueOk, DeferredAreQueued, OnePerMethod, LineClassesOk, MethodsInstalled, OneSlotEach;
    forall c | c in s.methods ensures Drop(s.methods[c], MethodRecId, {id}) == s.methods[c] {
      DropNone(s.methods[c], MethodRecId, {id});
    }
    forall c | c in s.lines ensures Drop(s.lines[c], LineRecId, {id}) == s.lines[c] {
      DropNone(s.lines[c], LineRecId, {id});
    }
  }

  lemma {:induction false} SlotRetired(s: State, slot: nat, id: Id)
    requires Full(s) && Owns(s.slots, slot, id)
    ensures Freed(s.slots, slot) == Retire(s, {id}).slots
  {
    FreeIsRetire(s.registry.Keys, s.slots, slot, id);
  }

  /** Its items, its entry and its slot are all there is to it. */
  lemma {:induction false} WaitingRetired(s: State, s': State, id: Id, p: nat, distinct: bool, loading: Option<string>)
    requires Inv(s, distinct, loading) && StillWaits(s.registry, id) && p < |s.queue| && s.queue[p].id == id
    requires s' == s.(registry := s.registry - {id}, queue := Drop(s.queue, ItemId, {id}),
                      slots := Freed(s.slots, s.queue[p].slot))
    ensures Retired(s, s', {id}, distinct)
  {
    hide QueueOk, MethodsOk, DeferredAreQueued, OnePerMethod, LinesOk, MethodsInstalled, LinesInstalled, Drop, Freed,
         SlotsOk;
    WaitingHasNoRecords(s, id, loading);
    if distinct {
      assert s.queue[p] in s.queue && Owns(s.slots, s.queue[p].slot, id);
      SlotRetired(s, s.queue[p].slot, id);
    }
  }

  /** A method's only item, and that of a line's last waiting side. */
  lemma {:induction false} OnlyItem(s: State, p: nat, loading: Option<string>)
    requires Base(s, loading) && p < |s.queue|
    requires var it := s.queue[p]; it.LineItem? ==>
             LineAt(s.registry, it.id) && s.registry[it.id].Applied(it.side).Ready()
    ensures Drop(s.queue, ItemId, {s.queue[p].id}) == Without(s.queue, p)
    ensures StillWaits(s.registry, s.queue[p].id)
  {
    hide Drop;
    var it := s.queue[p];
    assert it in s.queue && ItemOk(s.registry, s.methods.Keys, it, loading);
    WithoutTasks(s.queue, p);
    forall x | x in Without(s.queue, p) ensures x.id != it.id {
      assert ItemOk(s.registry, s.methods.Keys, x, loading);
    }
    DropItemsIsRetire(s.queue, p, it.id);
    var w := Without(s.queue, p);
    assert forall k :: 0 <= k < |w| ==> w[k] in w;
  }

  // ----- deferred instruments of a class being loaded -----

  lemma {:induction false} DeferredMethodFails(s: State, s': State, p: nat, distinct: bool, loading: Option<string>)
    requires Inv(s, distinct, loading) && p < |s.queue| && s.queue[p].MethodItem?
    requires s' == s.(registry := s.registry - {s.queue[p].id}, queue := Without(s.queue, p),
                      slots := Freed(s.slots, s.queue[p].slot))
    ensures Retired(s, s', {s.queue[p].id}, distinct) && Inv(s', distinct, loading)
  {
    OnlyItem(s, p, loading);
    hide Inv, Retired;
    WaitingRetired(s, s', s.queue[p].id, p, distinct, loading);
    RetiredKeeps(s, s', {s.queue[p].id}, distinct, loading);
  }

  lemma {:induction false} WaitingIsVacant(s: State, id: Id, now: Side)
    requires Full(s) && LineAt(s.registry, id) && !s.registry[id].Ready()
    ensures Vacant(s.lines, s.registry[id].Applied(now))
  {
    NoRecsYet(s.registry, s.lines, id);
    var e := s.registry[id].Applied(now);
    forall c, r, side: Side | c in s.lines && r in s.lines[c] && c == e.ClassOf(side) ensures r.line != e.LineOf(side) {
      if r.line == e.LineOf(side) {
        LineFindsOwn(s, id, side, r);
      }
    }
  }

  /** The entry, marked, is ready, but making its records or reinstalling a class failed. */
  lemma {:induction false} DeferredLineFails(s: State, mid: State, end: State, p: nat, distinct: bool,
                                             loading: Option<string>)
    requires Inv(s, distinct, loading) && p < |s.queue| && s.queue[p].LineItem? && LineAt(s.registry, s.queue[p].id)
    requires s.registry[s.queue[p].id].Applied(s.queue[p].side).Ready() &&
             s.methods.Keys == s.lines.Keys == s.installed.Keys
    requires s.registry[s.queue[p].id].cls in s.methods && s.registry[s.queue[p].id].exitCls in s.methods
    requires var it := s.queue[p];
             mid.registry == s.registry[it.id := s.registry[it.id].Applied(it.side)] &&
             mid == s.(registry := mid.registry)
    requires LineUndone(mid, end, s.registry[s.queue[p].id].Applied(s.queue[p].side), s.queue[p].id, s.queue[p].slot)
    ensures Retired(s, end.(queue := Without(s.queue, p)), {s.queue[p].id}, distinct)
    ensures Inv(end.(queue := Without(s.queue, p)), distinct, loading)
  {
    var it, s' := s.queue[p], end.(queue := Without(s.queue, p));
    OnlyItem(s, p, loading);
    hide Inv, Retired, Without, LineUndone;
    DeferredLineRetires(s, mid, end, p, distinct, loading);
    RetiredKeeps(s, s', {it.id}, distinct, loading);
  }

  lemma {:induction false} DeferredLineRetires(s: State, mid: State, end: State, p: nat, distinct: bool,
                                               loading: Option<string>)
    requires Inv(s, distinct, loading) && p < |s.queue| && s.queue[p].LineItem? && LineAt(s.registry, s.queue[p].id)
    requires StillWaits(s.registry, s.queue[p].id) && Drop(s.queue, ItemId, {s.queue[p].id}) == Without(s.queue, p)
    requires s.methods.Keys == s.lines.Keys == s.installed.Keys
    requires s.registry[s.queue[p].id].cls in s.methods && s.registry[s.queue[p].id].exitCls in s.methods
    requires var it := s.queue[p];
             mid.registry == s.registry[it.id := s.registry[it.id].Applied(it.side)] &&
             mid == s.(registry := mid.registry)
    requires LineUndone(mid, end, s.registry[s.queue[p].id].Applied(s.queue[p].side), s.queue[p].id, s.queue[p].slot)
    ensures Retired(s, end.(queue := Without(s.queue, p)), {s.queue[p].id}, distinct)
  {
    hide QueueOk, DeferredAreQueued, OnePerMethod, LinesOk, MethodsInstalled, LinesInstalled, Drop, Freed, SlotsOk,
         Vacant, MethodsOk, LineRecsKnown, Wanted, Without, AddLines;
    var it := s.queue[p];
    var id, e := it.id, s.registry[it.id].Applied(it.side);
    var ideal := s.(registry := s.registry - {id}, queue := Drop(s.queue, ItemId, {id}), slots := end.slots);
    WaitingRetired(s, ideal, id, p, distinct, loading);
    FewerKnown(s.registry, s.nextId, s.nextId, s.lines, end.lines, id);
    UndoneInstalled(mid, end, e, id, it.slot, distinct);
    if distinct {
      WaitingIsVacant(s, id, it.side);
    }
    assert end.registry == ideal.registry;
  }

  // ----- deinstrumenting -----

  /** `installed'` is `installed`, or that with the class reinstalled as its records now are. */
  ghost predicate MayReinstall(installed: Installed, installed': Installed, ms: Methods, ls: Lines, cls: string)
    requires cls in ms && cls in ls
  {
    installed' == installed || installed' == Reinstalled(installed, ms, ls, cls)
  }

  /** The classes in `done` are reinstalled as their records now are, the others are as before. */
  function ReinstalledAll(installed: Installed, ms: Methods, ls: Lines, done: set<string>): Installed
    requires done <= ms.Keys && done <= ls.Keys
  {
    map c | c in installed.Keys + done :: if c in done then Wanted(ms[c], ls[c]) else installed[c]
  }

  lemma {:induction false} ReinstalledOne(installed: Installed, ms: Methods, ls: Lines, cls: string)
    requires cls in ms && cls in ls
    ensures ReinstalledAll(installed, ms, ls, {cls}) == Reinstalled(installed, ms, ls, cls)
    ensures ReinstalledAll(installed, ms, ls, {}) == installed
  {
    hide Wanted;
  }

  lemma {:induction false} ReinstalledAllKeeps(installed: Installed, ms: Methods, ls: Lines, done: set<string>)
    requires done <= ms.Keys && done <= ls.Keys && done <= installed.Keys
    ensures ReinstalledAll(installed, ms, ls, done).Keys == installed.Keys
    ensures MethodsInstalled(ms, installed) ==> MethodsInstalled(ms, ReinstalledAll(installed, ms, ls, done))
    ensures LinesInstalled(ls, installed) ==> LinesInstalled(ls, ReinstalledAll(installed, ms, ls, done))
  {
    hide Wanted;
    var installed' := ReinstalledAll(installed, ms, ls, done);
    forall c, r | MethodsInstalled(ms, installed) && c in ms && r in ms[c]
      ensures c in installed' && MethodProbe(r.sig, r.slot) in installed'[c]
    {
      if c in done {
        WantedHas(ms[c], ls[c], r);
      }
    }
    forall c, r | LinesInstalled(ls, installed) && c in ls && r in ls[c]
      ensures c in installed' && LineProbe(r.line, r.slot, r.side) in installed'[c]
    {
      if c in done {
        WantedHasLine(ms[c], ls[c], r);
      }
    }
  }

  lemma {:induction false} MayReinstallKeeps(installed: Installed, installed': Installed, ms: Methods, ls: Lines,
                                             cls: string)
    requires cls in ms && cls in ls && MayReinstall(installed, installed', ms, ls, cls) && cls in installed
    ensures installed'.Keys == installed.Keys
    ensures MethodsInstalled(ms, installed) ==> MethodsInstalled(ms, installed')
    ensures LinesInstalled(ls, installed) ==> LinesInstalled(ls, installed')
  {
    hide Wanted, MethodsInstalled, LinesInstalled;
    if installed' != installed {
      if MethodsInstalled(ms, installed) {
        ReinstallKeepsMethods(ms, ls, installed, cls);
      }
      if LinesInstalled(ls, installed) {
        ReinstallKeepsLines(ms, ls, installed, cls);
      }
    }
  }

  lemma {:induction false} StillInstalled(ms: Methods, ms': Methods, ls: Lines, ls': Lines, installed: Installed)
    requires forall c, r {:trigger r in ms'[c]} :: c in ms' && r in ms'[c] ==> c in ms && r in ms[c]
    requires forall c, r {:trigger r in ls'[c]} :: c in ls' && r in ls'[c] ==> c in ls && r in ls[c]
    ensures MethodsInstalled(ms, installed) ==> MethodsInstalled(ms', installed)
    ensures LinesInstalled(ls, installed) ==> LinesInstalled(ls', installed)
  {
  }

  /** The record is gone, and if the answer is OK the class is reinstalled. */
  ghost predicate MethodTaken(s: State, s': State, e: Entry, id: Id, slot: int, ok: bool)
    requires e.MethodEntry? && e.cls in s.methods && e.cls in s.lines
  {
    var ms := s.methods[e.cls];
    && FindSig(ms, e.sig) < |ms| && slot == ms[FindSig(ms, e.sig)].slot
    && s' == s.(registry := s.registry - {id}, slots := Freed(s.slots, slot),
                methods := s.methods[e.cls := DropSig(ms, e.sig)], installed := s'.installed)
    && s'.installed == ReinstalledAll(s.installed, s'.methods, s.lines, if ok then {e.cls} else {})
  }

  lemma {:induction false} MethodTakenRetires(s: State, s': State, id: Id, slot: int, ok: bool, distinct: bool)
    requires Inv(s, distinct, None) && MethodAt(s.registry, id) && !s.registry[id].deferred
    requires s.registry[id].cls in s.methods && s.registry[id].cls in s.lines &&
             MethodTaken(s, s', s.registry[id], id, slot, ok)
    ensures Retired(s, s', {id}, distinct) && Inv(s', distinct, None)
  {
    hide QueueOk, DeferredAreQueued, OnePerMethod, LinesOk, MethodsInstalled, LinesInstalled, Drop, Freed, SlotsOk,
         DropSig, FindSig, MethodsOk, LineRecsKnown;
    var e := s.registry[id];
    var ms := s.methods[e.cls];
    var own := ms[FindSig(ms, e.sig)];
    SigFindsOwn(s, id, None);
    DropSigIsRetire(s, id, None);
    DropSigOnlyDrops(ms, e.sig);
    StillInstalled(s.methods, s'.methods, s.lines, s.lines, s.installed);
    ReinstalledAllKeeps(s.installed, s'.methods, s.lines, if ok then {e.cls} else {});
    FewerKnown(s.registry, s.nextId, s.nextId, s.lines, s.lines, id);
    if distinct {
      assert own in ms && Owns(s.slots, own.slot, id);
      SlotRetired(s, own.slot, id);
    }
    RetiredKeeps(s, s', {id}, distinct, None);
  }

  lemma {:induction false} DropSigOnlyDrops(ms: seq<MethodRec>, sig: string)
    ensures forall r :: r in DropSig(ms, sig) ==> r in ms
  {
  }

  /** Two records are gone by line number, and the classes in `done` are reinstalled. */
  ghost predicate LineTaken(s: State, s': State, e: Entry, id: Id, slot: int, done: set<string>)
    requires e.LineEntry? && e.cls in s.methods && e.exitCls in s.methods && s.methods.Keys == s.lines.Keys
  {
    var ls := s.lines[e.cls];
    var p := FindLine(ls, e.line);
    && slot == (if p < |ls| then ls[p].slot else -1)
    && s' == s.(registry := s.registry - {id}, slots := Freed(s.slots, slot), lines := DropLines(s.lines, e),
                installed := s'.installed)
    && done <= {e.cls, e.exitCls}
    && s'.installed == ReinstalledAll(s.installed, s.methods, s'.lines, done)
  }

  lemma {:induction false} LineTakenRetires(s: State, s': State, id: Id, slot: int, done: set<string>, distinct: bool)
    requires Inv(s, distinct, None) && LineAt(s.registry, id) && s.registry[id].Ready() &&
             s.methods.Keys == s.lines.Keys
    requires s.registry[id].cls in s.methods && s.registry[id].exitCls in s.methods &&
             LineTaken(s, s', s.registry[id], id, slot, done)
    ensures Retired(s, s', {id}, distinct) && Inv(s', distinct, None)
  {
    hide QueueOk, DeferredAreQueued, OnePerMethod, LinesOk, MethodsInstalled, LinesInstalled, Drop, Freed, SlotsOk,
         DropLines, FindLine, MethodsOk, LineRecsKnown, ReinstalledAll;
    var e := s.registry[id];
    NotQueuedNotMethod(s, id, None);
    DropLinesOnlyDrops(s.lines, e);
    StillInstalled(s.methods, s.methods, s.lines, s'.lines, s.installed);
    ReinstalledAllKeeps(s.installed, s.methods, s'.lines, done);
    FewerKnown(s.registry, s.nextId, s.nextId, s.lines, s'.lines, id);
    if distinct {
      DropLinesIsRetire(s, id, None);
      SideIsFound(s, id, Enter);
      var ls := s.lines[e.cls];
      assert ls[FindLine(ls, e.line)] in ls && Owns(s.slots, slot, id);
      SlotRetired(s, slot, id);
    }
    RetiredKeeps(s, s', {id}, distinct, None);
  }

  /** What is taken away is taken away entirely; nothing is given a number. */
  lemma {:induction false} RetiredSucceeds(s: State, s': State, ids: set<Id>, distinct: bool)
    requires Retired(s, s', ids, distinct)
    ensures Successor(s, s')
  {
  }

  // ----- the queue items of one instrument -----

  ghost predicate OneTaskEach(q: seq<Item>) { forall i, j :: 0 <= i < j < |q| ==> !SameTask(q[i], q[j]) }

  /** All items of the instrument are gone; `slot` is the one they named. */
  ghost predicate Unqueued(s: State, s': State, id: Id, slot: int) {
    && s' == s.(queue := Drop(s.queue, ItemId, {id}))
    && (slot < 0 ==> forall it :: it in s.queue ==> it.id != id)
    && (slot >= 0 ==> exists p :: 0 <= p < |s.queue| && s.queue[p].id == id && s.queue[p].slot == slot)
  }

  lemma {:induction false} NoItems(q: seq<Item>, id: Id)
    requires forall it :: it in q ==> it.id != id
    ensures Drop(q, ItemId, {id}) == q
  {
    DropNone(q, ItemId, {id});
  }

  /** After the first item of an instrument is gone: none is left when it was a
      method's; otherwise at most one, for the other side of the line and with the same slot. */
  lemma {:induction false} FirstItemGone(q: seq<Item>, p: nat, id: Id)
    requires OneTaskEach(q) && OneSlotEach(q) && p < |q| && q[p].id == id
    ensures var w := Without(q, p);
            && (q[p].MethodItem? ==> (forall it :: it in w ==> it.id != id) && w == Drop(q, ItemId, {id}))
            && ((forall it :: it in w ==> it.id != id) ==> w == Drop(q, ItemId, {id}))
            && forall k :: 0 <= k < |w| && w[k].id == id ==>
                 && w[k].LineItem? && w[k].slot == q[p].slot
                 && Without(w, k) == Drop(q, ItemId, {id})
                 && (forall it :: it in Without(w, k) ==> it.id != id)
  {
    hide Drop;
    var w := Without(q, p);
    WithoutTasks(q, p);
    DropItemsIsRetire(q, p, id);
    DropIn(q, ItemId, {id});
    assert forall k :: 0 <= k < |w| ==> w[k] in w;
  }

  lemma {:induction false} DropConcat<T>(a: seq<T>, b: seq<T>, f: T -> Id, ids: set<Id>)
    ensures Drop(a + b, f, ids) == Drop(a, f, ids) + Drop(b, f, ids)
    decreases |b|
  {
    if b == [] {
      assert a + b == a;
    } else {
      var n := |b| - 1;
      DropConcat(a, b[..n], f, ids);
      assert a + b == (a + b[..n]) + [b[n]];
      DropSnoc(a + b[..n], b[n], f, ids);
    }
  }

  /** Items just appended for a new number can be taken off again. */
  lemma {:induction false} AppendedItems(q: seq<Item>, added: seq<Item>, id: Id)
    requires OneTaskEach(q) && OneSlotEach(q) && forall it :: it in q ==> it.id != id
    requires OneTaskEach(added) && OneSlotEach(added) && forall it :: it in added ==> it.id == id
    ensures OneTaskEach(q + added) && OneSlotEach(q + added) && Drop(q + added, ItemId, {id}) == q
  {
    hide Drop;
    var all := q + added;
    assert forall i :: 0 <= i < |q| ==> q[i] in q;
    assert forall i :: 0 <= i < |added| ==> added[i] in added;
    DropConcat(q, added, ItemId, {id});
    DropNone(q, ItemId, {id});
    DropAll(added, ItemId, {id});
  }

  lemma {:induction false} QueueUnique(s: State, distinct: bool, loading: Option<string>)
    requires Inv(s, distinct, loading)
    ensures OneTaskEach(s.queue) && OneSlotEach(s.queue)
  {
  }

  /** What `instrument_later_line` leaves: the flags and the items, or nothing. */
  ghost predicate LaterLine(s: State, s': State, e: Entry, id: Id, slot: nat, enterLoaded: bool, exitLoaded: bool,
                            ok: bool)
    requires e.LineEntry?
  {
    if ok then
      s' == s.(registry := s.registry[id := LaterEntry(e, enterLoaded, exitLoaded)],
               queue := s.queue + LaterItems(e, id, slot, enterLoaded, exitLoaded))
    else s' == s.(registry := s.registry - {id})
  }

  /** Items for the sides handled so far, the second only after the first. */
  ghost predicate AddedSoFar(e: Entry, id: Id, slot: nat, added: seq<Item>)
    requires e.LineEntry?
  {
    var enter, exit := LineItem(id, slot, e.cls, e.line, Enter), LineItem(id, slot, e.exitCls, e.exitLine, Exit);
    added == [] || added == [enter] || added == [exit] || added == [enter, exit]
  }

  lemma {:induction false} LaterLineFailed(s: State, mid: State, s': State, e: Entry, id: Id, slot: nat,
                                           added: seq<Item>,
                                           enterLoaded: bool, exitLoaded: bool)
    requires e.LineEntry? && OneTaskEach(s.queue) && OneSlotEach(s.queue) && forall it :: it in s.queue ==> it.id != id
    requires AddedSoFar(e, id, slot, added) && mid.queue == s.queue + added &&
             mid == s.(registry := mid.registry, queue := mid.queue)
    requires mid.registry - {id} == s.registry - {id}
    requires s' == mid.(queue := Drop(mid.queue, ItemId, {id}), registry := mid.registry - {id})
    ensures LaterLine(s, s', e, id, slot, enterLoaded, exitLoaded, false)
  {
    AppendedItems(s.queue, added, id);
  }

  lemma {:induction false} AddedQueueUnique(q: seq<Item>, e: Entry, id: Id, slot: nat, added: seq<Item>)
    requires e.LineEntry? && OneTaskEach(q) && OneSlotEach(q) && forall it :: it in q ==> it.id != id
    requires AddedSoFar(e, id, slot, added)
    ensures OneTaskEach(q + added) && OneSlotEach(q + added)
  {
    AppendedItems(q, added, id);
  }

  lemma {:induction false} LaterLineDone(s: State, s': State, e: Entry, id: Id, slot: nat, enterLoaded: bool,
                                         exitLoaded: bool, reg: Registry)
    requires e.LineEntry? && e.enterDeferred && e.exitDeferred && id in s.registry && s.registry[id] == e
    requires reg == if enterLoaded then s.registry[id := e.Applied(Enter)] else s.registry
    requires s'.registry == if exitLoaded || e.cls == e.exitCls then reg[id := reg[id].Applied(Exit)] else reg
    requires s' == s.(registry := s'.registry, queue := s.queue + LaterItems(e, id, slot, enterLoaded, exitLoaded))
    ensures LaterLine(s, s', e, id, slot, enterLoaded, exitLoaded, true)
  {
    assert s'.registry == s.registry[id := LaterEntry(e, enterLoaded, exitLoaded)];
  }

  lemma {:induction false} NotNow(s: State, s': State, e: Entry, id: Id, slot: nat, ok: bool)
    requires e.LineEntry? && e.cls in s.methods && e.exitCls in s.methods && s.methods.Keys == s.lines.Keys
    requires LineNow(s, s', e, id, slot, ok)
    ensures !ok ==> LineUndone(s, s', e, id, slot)
  {
  }

  lemma {:induction false} LineError(s: State, s': State, e: Entry, id: Id, slot: int, distinct: bool)
    requires Inv(s, distinct, None) && s.methods.Keys == s.lines.Keys && e.LineEntry? && e.enterDeferred &&
             e.exitDeferred
    requires s.nextId <= s'.nextId && s' == s.(nextId := s'.nextId, registry := s'.registry)
    requires s'.registry == s.registry || s'.registry == s.registry[s.nextId := e] - {s.nextId}
    ensures Inv(s', distinct && Apart(s.registry, e), None)
    ensures LineOutcome(s, s', e, Error, id, slot) && Successor(s, s')
  {
    hide Inv, Vacant, Apart;
    NumberIsNew(s, distinct, None);
    assert s'.registry == s.registry;
    BurnKeeps(s, s', distinct, None);
    Weaker(s', distinct, distinct && Apart(s.registry, e), None);
  }

  // ----- the outcome of deinstrumenting -----

  /** The instrument is gone from everywhere, also when reinstalling its class
      failed; an unknown number changes nothing. */
  ghost predicate DeinstrumentOutcome(s: State, s': State, id: Id, ok: bool, distinct: bool) {
    if id in s.registry then Retired(s, s', {id}, distinct) && s'.nextId == s.nextId
    else !ok && s' == s
  }

  /** The classes an applied instrument has its probes in. */
  function ClassesOf(reg: Registry, id: Id): set<string>
    requires id in reg
  {
    if reg[id].MethodEntry? then {reg[id].cls} else {reg[id].cls, reg[id].exitCls}
  }

  /** The JVM took new bytecode for the classes in `done` and for no other. */
  ghost predicate BytecodeTaken(s: State, s': State, id: Id, done: set<string>) {
    && done <= s'.methods.Keys && done <= s'.lines.Keys
    && s'.installed == ReinstalledAll(s.installed, s'.methods, s'.lines, done)
    && if id in s.registry && !StillWaits(s.registry, id) then done <= ClassesOf(s.registry, id) else done == {}
  }

  /** When taking an instrument away is answered OK: it is known, and it waits, or it is a
      method whose class the JVM took, or a line for whose classes there was new bytecode. */
  predicate Answer(reg: Registry, id: Id, made: set<string>, done: set<string>) {
    id in reg &&
    if reg[id].MethodEntry? then reg[id].deferred || reg[id].cls in done
    else reg[id].enterDeferred || reg[id].exitDeferred || {reg[id].cls, reg[id].exitCls} <= made
  }

  predicate SlotFree(probes: set<Probe>, slot: int) { forall p :: p in probes ==> p.slot != slot }

  /** The slot of an applied instrument is free afterwards, and a class is rid of probes
      of that slot if and only if the JVM took its new bytecode. */
  ghost predicate ProbesGone(s: State, s': State, id: Id, done: set<string>) {
    forall slot, c ::
      Owns(s.slots, slot, id) && id in s.registry && !StillWaits(s.registry, id) && c in ClassesOf(s.registry, id) ==>
        !Owns(s'.slots, slot, id) && c in s'.installed && (SlotFree(s'.installed[c], slot) <==> c in done)
  }

  /** Records name slots that are owned, so reinstalling a class leaves no probe of any other slot. */
  lemma {:induction false} WantedIsOwned(ms: Methods, ls: Lines, slots: seq<Slot>, c: string, slot: int)
    requires MethodSlots(ms, slots) && LineSlots(ls, slots) && c in ms && c in ls
    requires forall x :: !Owns(slots, slot, x)
    ensures SlotFree(Wanted(ms[c], ls[c]), slot)
  {
    var probes := Wanted(ms[c], ls[c]);
    forall p | p in probes ensures p.slot != slot {
      if p.MethodProbe? {
        var r :| r in ms[c] && p == MethodProbe(r.sig, r.slot);
        assert Owns(slots, r.slot, r.id);
      } else {
        var r :| r in ls[c] && p == LineProbe(r.line, r.slot, r.side);
        assert Owns(slots, r.slot, r.id);
      }
    }
  }

  /** In each of its classes an applied instrument has a probe installed, of its own slot. */
  lemma {:induction false} AppliedHasProbe(s: State, id: Id, slot: int, c: string)
    requires Base(s, None) && Full(s) && id in s.registry && !StillWaits(s.registry, id) && Owns(s.slots, slot, id)
    requires c in ClassesOf(s.registry, id)
    ensures c in s.installed && !SlotFree(s.installed[c], slot)
  {
    var e := s.registry[id];
    if e.MethodEntry? {
      assert HasMethodRec(s.methods, c, id);
      var r :| r in s.methods[c] && r.id == id;
      assert Owns(s.slots, r.slot, id) && MethodProbe(r.sig, r.slot) in s.installed[c];
    } else {
      var side := if c == e.cls then Enter else Exit;
      assert e.ClassOf(side) == c && HasLineRec(s.lines, c, id, side);
      var r :| r in s.lines[c] && r.id == id && r.side == side;
      assert Owns(s.slots, r.slot, id) && LineProbe(r.line, r.slot, r.side) in s.installed[c];
    }
  }

  lemma {:induction false} NoneOwns(s: State, s': State, id: Id, slot: int)
    requires SlotsOk(s.registry.Keys, s.slots) && Owns(s.slots, slot, id) && Retired(s, s', {id}, true)
    ensures forall x :: !Owns(s'.slots, slot, x)
  {
    forall x ensures !Owns(s'.slots, slot, x) {
      assert Owns(Retire(s, {id}).slots, slot, x) <==> Owns(s'.slots, slot, x);
      assert Owns(Retire(s, {id}).slots, slot, x) ==> Owns(s.slots, slot, x) && x != id;
    }
  }

  /** Exactly the bytecode the JVM did not take keeps the probe of an instrument taken away. */
  lemma {:induction false} ProbesGoneIff(s: State, s': State, id: Id, done: set<string>)
    requires Inv(s, true, None) && Inv(s', true, None) && BytecodeTaken(s, s', id, done)
    requires id in s.registry ==> Retired(s, s', {id}, true)
    ensures ProbesGone(s, s', id, done)
  {
    hide Base, Full, Retired, Wanted, SlotFree;
    forall slot, c | Owns(s.slots, slot, id) && id in s.registry && !StillWaits(s.registry, id) &&
      c in ClassesOf(s.registry, id)
      ensures !Owns(s'.slots, slot, id) && c in s'.installed && (SlotFree(s'.installed[c], slot) <==> c in done)
    {
      SlotsOfFull(s);
      SlotsOfFull(s');
      NoneOwns(s, s', id, slot);
      AppliedHasProbe(s, id, slot, c);
      if c in done {
        WantedIsOwned(s'.methods, s'.lines, s'.slots, c, slot);
      }
    }
  }

  lemma {:induction false} SlotsOfFull(s: State)
    requires Full(s)
    ensures SlotsOk(s.registry.Keys, s.slots) && MethodSlots(s.methods, s.slots) && LineSlots(s.lines, s.slots)
  {
  }

  lemma {:induction false} NothingTaken(s: State, s': State, id: Id)
    requires s'.installed == s.installed && (id in s.registry ==> StillWaits(s.registry, id))
    ensures BytecodeTaken(s, s', id, {})
  {
  }

  lemma {:induction false} DeferredTaken(s: State, mid: State, s': State, id: Id, slot: int, distinct: bool)
    requires Inv(s, distinct, None) && StillWaits(s.registry, id) && Unqueued(s, mid, id, slot)
    requires s' == mid.(registry := mid.registry - {id},
                        slots := if slot >= 0 then Freed(mid.slots, slot) else mid.slots)
    ensures Retired(s, s', {id}, distinct) && Inv(s', distinct, None) && s'.nextId == s.nextId && Successor(s, s')
    ensures s'.installed == s.installed
  {
    hide Drop, Freed, Retired, Successor;
    HasSomeItem(s, id);
    assert slot >= 0;
    hide Inv;
    var p :| 0 <= p < |s.queue| && s.queue[p].id == id && s.queue[p].slot == slot;
    WaitingRetired(s, s', id, p, distinct, None);
    RetiredKeeps(s, s', {id}, distinct, None);
    RetiredSucceeds(s, s', {id}, distinct);
  }

  lemma {:induction false} HasSomeItem(s: State, id: Id)
    requires Base(s, None) && StillWaits(s.registry, id)
    ensures exists it :: it in s.queue && it.id == id
  {
    if s.registry[id].MethodEntry? {
      assert HasMethodItem(s.queue, id);
    } else {
      assert HasLineItem(s.queue, id, if s.registry[id].enterDeferred then Enter else Exit);
    }
  }

  lemma {:induction false} AppliedMethodFound(s: State, id: Id, distinct: bool)
    requires Inv(s, distinct, None) && MethodAt(s.registry, id) && !s.registry[id].deferred
    ensures var e := s.registry[id];
            e.cls in s.methods && e.cls in s.lines && FindSig(s.methods[e.cls], e.sig) < |s.methods[e.cls]|
  {
    SigFindsOwn(s, id, None);
  }

  lemma {:induction false} ReadyLineFound(s: State, id: Id, distinct: bool)
    requires Inv(s, distinct, None) && LineAt(s.registry, id) && s.registry[id].Ready()
    ensures s.registry[id].cls in s.methods && s.registry[id].exitCls in s.methods && s.methods.Keys == s.lines.Keys
  {
  }

  lemma {:induction false} MethodTakenBytecode(s: State, s': State, id: Id, slot: int, ok: bool)
    requires MethodAt(s.registry, id) && !s.registry[id].deferred
    requires s.registry[id].cls in s.methods && s.registry[id].cls in s.lines &&
             MethodTaken(s, s', s.registry[id], id, slot, ok)
    ensures s'.nextId == s.nextId && BytecodeTaken(s, s', id, if ok then {s.registry[id].cls} else {})
  {
    hide Freed, DropSig, FindSig, ReinstalledAll;
  }

  lemma {:induction false} LineTakenBytecode(s: State, s': State, id: Id, slot: int, done: set<string>)
    requires LineAt(s.registry, id) && s.registry[id].Ready() && s.methods.Keys == s.lines.Keys
    requires s.registry[id].cls in s.methods && s.registry[id].exitCls in s.methods &&
             LineTaken(s, s', s.registry[id], id, slot, done)
    ensures s'.nextId == s.nextId && BytecodeTaken(s, s', id, done)
  {
    hide Freed, DropLine, FindLine, ReinstalledAll;
  }

  lemma {:induction false} SameSucceeds(s: State)
    ensures Successor(s, s)
  {
  }

  lemma {:induction false} LineTakenSteps(s: State, dropped: State, s': State, e: Entry, id: Id, slot: int,
                                          done: set<string>)
    requires e.LineEntry? && e.cls in s.methods && e.exitCls in s.methods && s.methods.Keys == s.lines.Keys
    requires slot == if FindLine(s.lines[e.cls], e.line) < |s.lines[e.cls]|
                     then s.lines[e.cls][FindLine(s.lines[e.cls], e.line)].slot else -1
    requires dropped == s.(lines := DropLines(s.lines, e)) && done <= {e.cls, e.exitCls}
    requires s' == dropped.(installed := ReinstalledAll(s.installed, s.methods, dropped.lines, done),
                            registry := s.registry - {id}, slots := if slot >= 0 then Freed(s.slots, slot) else s.slots)
    ensures LineTaken(s, s', e, id, slot, done)
  {
    hide DropLines, FindLine, ReinstalledAll;
  }

  lemma {:induction false} ReinstalledTwo(installed: Installed, ms: Methods, ls: Lines, a: string, first: bool,
                                          b: string, second: bool)
    requires a in ms && a in ls && b in ms && b in ls
    ensures var once := if first then Reinstalled(installed, ms, ls, a) else installed;
            ReinstalledAll(installed, ms, ls, (if first then {a} else {}) + if second then {b} else {}) ==
            if second then Reinstalled(once, ms, ls, b) else once
  {
    hide Wanted;
  }

  lemma {:induction false} SucceedsTwice(s: State, mid: State, s': State)
    requires Successor(s, mid) && Successor(mid, s')
    ensures Successor(s, s')
  {
  }
}
