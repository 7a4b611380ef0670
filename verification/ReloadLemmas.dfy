/**
 A class is loaded again: the new class takes over the records of the old one.
 When it cannot be instrumented, every instrument recorded in it is taken away,
 with the record a cross-class line has in its other class.
 */
module ReloadLemmas {
  import opened Prelude
  import opened HandlerState
  import opened HandlerLemmas
  import opened RetireLemmas
  import opened RollbackLemmas
  import opened HandlerOutcomes
  import opened DrainLemmas

  predicate CrossClass(reg: Registry, id: Id) { LineAt(reg, id) && reg[id].cls != reg[id].exitCls }

  function OtherSide(side: Side): Side { if side == Enter then Exit else Enter }

  /** What the clean-up does for one line record of the class. */
  ghost predicate RecordCleaned(s: State, s': State, r: LineRec)
    requires s.methods.Keys == s.lines.Keys
  {
    if CrossClass(s.registry, r.id) then
      var e := s.registry[r.id];
      var other := e.ClassOf(OtherSide(r.side));
      && s' == s.(registry := s.registry - {r.id}, slots := Freed(s.slots, r.slot), installed := s'.installed,
                  lines := if other in s.lines
                           then s.lines[other := DropLine(s.lines[other], e.LineOf(OtherSide(r.side)))]
                           else s.lines)
      && if other in s.lines then MayReinstall(s.installed, s'.installed, s.methods, s'.lines, other)
         else s'.installed == s.installed
    else if r.side == Enter then
      s' == s.(registry := s.registry - {r.id}, slots := Freed(s.slots, r.slot))
    else
      s' == s
  }

  /** The record a line has in its other class is dropped and that class reinstalled. */
  ghost predicate Dangling(s: State, s': State, e: Entry, side: Side)
    requires e.LineEntry? && s.methods.Keys == s.lines.Keys
  {
    var other := e.ClassOf(side);
    if other in s.lines then
      && s' == s.(lines := s.lines[other := DropLine(s.lines[other], e.LineOf(side))], installed := s'.installed)
      && MayReinstall(s.installed, s'.installed, s.methods, s'.lines, other)
    else s' == s
  }

  lemma {:induction false} CleanedSteps(s: State, mid: State, s': State, r: LineRec)
    requires s.methods.Keys == s.lines.Keys && (r.id in s.registry ==> LineAt(s.registry, r.id))
    requires if CrossClass(s.registry, r.id) then Dangling(s, mid, s.registry[r.id], OtherSide(r.side)) else mid == s
    requires s' == if r.side == Enter || CrossClass(s.registry, r.id)
                   then mid.(registry := mid.registry - {r.id}, slots := Freed(mid.slots, r.slot))
                   else mid
    ensures RecordCleaned(s, s', r)
  {
    hide DropLine, Freed, Wanted;
  }

  /** `gone` holds numbers recorded in the class only. */
  ghost predicate RecordedIn(s: State, name: string, gone: set<Id>)
    requires name in s.methods && name in s.lines
  {
    forall id :: id in gone ==>
      (exists r :: r in s.methods[name] && r.id == id) || (exists r :: r in s.lines[name] && r.id == id)
  }

  /** Part way through the clean-up of class `name`: `gone` has been taken away,
      but the class's own lists are still whole. `inst` is what is installed,
      except that the class itself now runs without any probe. */
  ghost predicate Cleaning(was: State, s: State, name: string, gone: set<Id>, inst: Installed)
    requires name in was.methods && name in was.lines
  {
    && s == was.(registry := was.registry - gone, slots := s.slots, lines := s.lines, installed := inst[name := {}])
    && s.lines.Keys == was.lines.Keys && s.lines[name] == was.lines[name]
    && (forall c, r {:trigger r in s.lines[c]} :: c in s.lines && r in s.lines[c] ==> r in was.lines[c])
    && inst.Keys == was.installed.Keys && MethodsInstalled(was.methods, inst)
    && RecordedIn(was, name, gone)
  }

  /** With distinct lines, no one else is touched. */
  ghost predicate CleaningExact(was: State, s: State, name: string, gone: set<Id>, inst: Installed)
    requires name in was.lines && s.lines.Keys == was.lines.Keys
  {
    && s.slots == RetireSlots(was.slots, gone)
    && (forall c :: c in was.lines && c != name ==> s.lines[c] == Drop(was.lines[c], LineRecId, gone))
    && LinesInstalled(s.lines[name := []], inst)
  }

  lemma {:induction false} RetireOneMore(live: set<Id>, slots: seq<Slot>, gone: set<Id>, slot: int, id: Id)
    requires SlotsOk(live, slots) && Owns(slots, slot, id)
    ensures Freed(RetireSlots(slots, gone), slot) == RetireSlots(slots, gone + {id})
  {
    FreeIsRetire(live, slots, slot, id);
    forall j | 0 <= j < |slots| && slots[j].id == id && j != slot ensures !slots[j].active {
      assert slots[j].active ==> Owns(slots, j, id);
    }
  }

  /** The class loses a method instrument. */
  lemma {:induction false} MethodCleaned(was: State, s: State, s': State, name: string, gone: set<Id>, inst: Installed,
                                         r: MethodRec, distinct: bool)
    requires Inv(was, distinct, None) && name in was.methods && name in was.lines && r in was.methods[name]
    requires Cleaning(was, s, name, gone, inst) && (distinct ==> CleaningExact(was, s, name, gone, inst))
    requires s' == s.(registry := s.registry - {r.id}, slots := Freed(s.slots, r.slot))
    ensures Cleaning(was, s', name, gone + {r.id}, inst) &&
            (distinct ==> CleaningExact(was, s', name, gone + {r.id}, inst))
  {
    hide QueueOk, DeferredAreQueued, OnePerMethod, LinesOk, MethodsInstalled, LinesInstalled, Drop, Freed, SlotsOk,
         DistinctLines, LineRecsKnown;
    assert was.registry - gone - {r.id} == was.registry - (gone + {r.id});
    if distinct {
      RetireOneMore(was.registry.Keys, was.slots, gone, r.slot, r.id);
      forall c | c in was.lines && c != name
        ensures Drop(was.lines[c], LineRecId, gone + {r.id}) == Drop(was.lines[c], LineRecId, gone) {
        assert was.registry[r.id].MethodEntry?;
        forall x | x in was.lines[c] ensures x.id != r.id {
          LineRecIsOk(was, c, x);
        }
        DropSame(was.lines[c], gone, r.id);
      }
    }
  }

  lemma {:induction false} LineRecIsOk(s: State, c: string, x: LineRec)
    requires LinesOk(s.registry, s.lines) && c in s.lines && x in s.lines[c]
    ensures LineRecOk(s.registry, c, x)
  {
  }

  lemma {:induction false} DropSame(ls: seq<LineRec>, gone: set<Id>, id: Id)
    requires forall x :: x in ls ==> x.id != id
    ensures Drop(ls, LineRecId, gone + {id}) == Drop(ls, LineRecId, gone)
  {
    DropTwice(ls, LineRecId, {id}, gone);
    DropNone(ls, LineRecId, {id});
    assert {id} + gone == gone + {id};
  }

  /** The numbers gone after the clean-up has looked at record `r`. */
  function GoneAfter(reg: Registry, gone: set<Id>, r: LineRec): set<Id> {
    if r.side == Enter || CrossClass(reg, r.id) then gone + {r.id} else gone
  }

  lemma {:induction false} LineCleaned(was: State, s: State, s': State, name: string, gone: set<Id>, inst: Installed,
                                       r: LineRec, distinct: bool)
    returns (inst': Installed)
    requires Inv(was, distinct, None) && name in was.methods && name in was.lines && r in was.lines[name]
    requires Cleaning(was, s, name, gone, inst) && (distinct ==> CleaningExact(was, s, name, gone, inst))
    requires s.methods.Keys == s.lines.Keys && RecordCleaned(s, s', r)
    ensures Cleaning(was, s', name, GoneAfter(was.registry, gone, r), inst')
    ensures distinct ==> CleaningExact(was, s', name, GoneAfter(was.registry, gone, r), inst')
  {
    hide Inv, Cleaning, CleaningExact, RecordCleaned, DropLine, Freed;
    inst' := inst;
    if CrossClass(s.registry, r.id) {
      inst' := CrossLineCleaned(was, s, s', name, gone, inst, r, distinct);
    } else if r.side == Enter {
      OwnLineCleaned(was, s, s', name, gone, inst, r, distinct);
    } else {
      NothingCleaned(was, s, s', name, gone, inst, r);
    }
  }

  lemma {:induction false} NothingCleaned(was: State, s: State, s': State, name: string, gone: set<Id>,
                                          inst: Installed, r: LineRec)
    requires name in was.methods && name in was.lines && r in was.lines[name]
    requires Cleaning(was, s, name, gone, inst)
    requires s.methods.Keys == s.lines.Keys && RecordCleaned(s, s', r) && r.side == Exit &&
             !CrossClass(s.registry, r.id)
    ensures s' == s && (CrossClass(was.registry, r.id) ==> gone + {r.id} == gone)
    ensures GoneAfter(was.registry, gone, r) == gone
  {
    hide MethodsInstalled;
  }

  lemma {:induction false} OwnLineCleaned(was: State, s: State, s': State, name: string, gone: set<Id>,
                                          inst: Installed, r: LineRec, distinct: bool)
    requires Inv(was, distinct, None) && name in was.methods && name in was.lines && r in was.lines[name]
    requires Cleaning(was, s, name, gone, inst) && (distinct ==> CleaningExact(was, s, name, gone, inst))
    requires s.methods.Keys == s.lines.Keys && RecordCleaned(s, s', r) && !CrossClass(s.registry, r.id) &&
             r.side == Enter
    ensures Cleaning(was, s', name, gone + {r.id}, inst)
    ensures distinct ==> CleaningExact(was, s', name, gone + {r.id}, inst)
  {
    hide QueueOk, DeferredAreQueued, OnePerMethod, MethodsOk, LinesOk, MethodsInstalled, LinesInstalled, Drop, Freed,
         SlotsOk, DistinctLines, LineRecsKnown, DropLine;
    assert was.registry - gone - {r.id} == was.registry - (gone + {r.id});
    if distinct {
      RetireOneMore(was.registry.Keys, was.slots, gone, r.slot, r.id);
      forall c | c in was.lines && c != name
        ensures Drop(was.lines[c], LineRecId, gone + {r.id}) == Drop(was.lines[c], LineRecId, gone) {
        if r.id in gone {
          assert gone + {r.id} == gone;
        } else {
          LineRecIsOk(was, name, r);
          forall x | x in was.lines[c] ensures x.id != r.id {
            LineRecIsOk(was, c, x);
          }
          DropSame(was.lines[c], gone, r.id);
        }
      }
    }
  }

  lemma {:induction false} CrossLineCleaned(was: State, s: State, s': State, name: string, gone: set<Id>,
                                            inst: Installed, r: LineRec, distinct: bool)
    returns (inst': Installed)
    requires Inv(was, distinct, None) && name in was.methods && name in was.lines && r in was.lines[name]
    requires Cleaning(was, s, name, gone, inst) && (distinct ==> CleaningExact(was, s, name, gone, inst))
    requires s.methods.Keys == s.lines.Keys && RecordCleaned(s, s', r) && CrossClass(s.registry, r.id)
    ensures Cleaning(was, s', name, gone + {r.id}, inst') && GoneAfter(was.registry, gone, r) == gone + {r.id}
    ensures distinct ==> CleaningExact(was, s', name, gone + {r.id}, inst')
  {
    hide QueueOk, DeferredAreQueued, OnePerMethod, MethodsOk, LinesOk, MethodsInstalled, LinesInstalled, Drop, Freed,
         SlotsOk, DistinctLines, DropLine, Wanted;
    assert was.registry - gone - {r.id} == was.registry - (gone + {r.id});
    var e := was.registry[r.id];
    var other := e.ClassOf(OtherSide(r.side));
    assert e == s.registry[r.id] && e.ClassOf(r.side) == name && other != name;
    assert other in s.lines && other in was.lines;
    inst' := if s'.installed == s.installed then inst else inst[other := Wanted(s.methods[other], s'.lines[other])];
    assert s'.installed == inst'[name := {}];
    DropLineOnlyDrops(s.lines[other], e.LineOf(OtherSide(r.side)));
    MayReinstallKeeps(inst, inst', was.methods, s'.lines, other);
    if distinct {
      RetireOneMore(was.registry.Keys, was.slots, gone, r.slot, r.id);
      CrossLineDropped(was, name, gone, r);
      assert s'.lines[name := []][other] == s'.lines[other];
      StillInstalled(was.methods, was.methods, s.lines[name := []], s'.lines[name := []], inst);
      MayReinstallKeeps(inst, inst', was.methods, s'.lines[name := []], other);
    }
  }

  /** The record of the other side is the one dropped, and no other class has one. */
  lemma {:induction false} CrossLineDropped(was: State, name: string, gone: set<Id>, r: LineRec)
    requires Full(was) && name in was.lines && r in was.lines[name] && CrossClass(was.registry, r.id) && r.id !in gone
    ensures var e := was.registry[r.id];
            var other := e.ClassOf(OtherSide(r.side));
            && other in was.lines
            && DropLine(Drop(was.lines[other], LineRecId, gone), e.LineOf(OtherSide(r.side))) ==
               Drop(was.lines[other], LineRecId, gone + {r.id})
            && forall c :: c in was.lines && c != name && c != other ==>
                 Drop(was.lines[c], LineRecId, gone + {r.id}) == Drop(was.lines[c], LineRecId, gone)
  {
    hide Drop, DropLine;
    LineRecIsOk(was, name, r);
    var e := was.registry[r.id];
    var other := e.ClassOf(OtherSide(r.side));
    var g := Retire(was, gone);
    RetireFull(was, gone);
    DropSide(g, r.id, OtherSide(r.side), r.side);
    DropTwice(was.lines[other], LineRecId, gone, {r.id});
    forall c | c in was.lines && c != name && c != other
      ensures Drop(was.lines[c], LineRecId, gone + {r.id}) == Drop(was.lines[c], LineRecId, gone)
    {
      forall x | x in was.lines[c] ensures x.id != r.id {
        LineRecIsOk(was, c, x);
      }
      DropSame(was.lines[c], gone, r.id);
    }
  }

  // ----- the clean-up is over -----

  /** What has been taken away was applied, so nothing queued is affected, nor
      any method record of another class. */
  lemma {:induction false} RecordedQueue(was: State, name: string, gone: set<Id>)
    requires Base(was, None) && name in was.methods && name in was.lines && RecordedIn(was, name, gone)
    ensures Retire(was, gone).queue == was.queue
  {
    hide Drop;
    forall it | it in was.queue ensures it.id !in gone {
      assert ItemOk(was.registry, was.methods.Keys, it, None);
    }
    DropNone(was.queue, ItemId, gone);
  }

  lemma {:induction false} RecordedMethods(was: State, name: string, gone: set<Id>)
    requires Base(was, None) && name in was.methods && name in was.lines && RecordedIn(was, name, gone)
    requires forall r :: r in was.methods[name] ==> r.id in gone
    ensures Retire(was, gone).methods == was.methods[name := []]
  {
    hide Drop;
    DropAll(was.methods[name], MethodRecId, gone);
    forall c | c in was.methods && c != name ensures Drop(was.methods[c], MethodRecId, gone) == was.methods[c] {
      forall r | r in was.methods[c] ensures r.id !in gone {
        assert was.registry[r.id] == MethodEntry(c, r.sig, false);
      }
      DropNone(was.methods[c], MethodRecId, gone);
    }
    assert Retire(was, gone).methods.Keys == was.methods[name := []].Keys;
  }

  lemma {:induction false} LessKnown(reg: Registry, n: Id, ls: Lines, ls': Lines, ids: set<Id>)
    requires LineRecsKnown(reg, n, ls)
    requires forall c, r {:trigger r in ls'[c]} :: c in ls' && r in ls'[c] ==> c in ls && r in ls[c]
    ensures LineRecsKnown(reg - ids, n, ls')
  {
  }

  /** A line in the class has its ENTER record there, or is in another class too. */
  lemma {:induction false} AllLinesGone(was: State, name: string, gone: set<Id>)
    requires Inv(was, true, None) && name in was.lines
    requires forall r :: r in was.lines[name] && (r.side == Enter || CrossClass(was.registry, r.id)) ==> r.id in gone
    ensures forall r :: r in was.lines[name] ==> r.id in gone
  {
    forall r | r in was.lines[name] ensures r.id in gone {
      LineRecIsOk(was, name, r);
      if !CrossClass(was.registry, r.id) {
        assert HasLineRec(was.lines, was.registry[r.id].ClassOf(Enter), r.id, Enter);
      }
    }
  }

  /** With the class's lists cleared, exactly the instruments recorded in it are gone. */
  lemma {:induction false} ClearedRetires(was: State, s: State, s': State, name: string, gone: set<Id>,
                                          inst: Installed, distinct: bool)
    requires Inv(was, distinct, None) && name in was.methods && name in was.lines
    requires Cleaning(was, s, name, gone, inst) && (distinct ==> CleaningExact(was, s, name, gone, inst))
    requires forall r :: r in was.methods[name] ==> r.id in gone
    requires forall r :: r in was.lines[name] && (r.side == Enter || CrossClass(was.registry, r.id)) ==> r.id in gone
    requires s' == s.(methods := s.methods[name := []], lines := s.lines[name := []])
    ensures Retired(was, s', gone, distinct) && Inv(s', distinct, None)
    ensures distinct ==> gone == Recorded(was, name)
  {
    hide Inv, Retired, Cleaning, CleaningExact, Recorded;
    if distinct {
      AllLinesGone(was, name, gone);
      GoneIsRecorded(was, s, name, gone, inst);
    }
    ClearedAgrees(was, s, s', name, gone, inst, distinct);
    RetiredKeeps(was, s', gone, distinct, None);
  }

  /** The numbers in the class's lists. */
  function Recorded(s: State, name: string): set<Id>
    requires name in s.methods && name in s.lines
  {
    (set r | r in s.methods[name] :: r.id) + (set r | r in s.lines[name] :: r.id)
  }

  lemma {:induction false} GoneIsRecorded(was: State, s: State, name: string, gone: set<Id>, inst: Installed)
    requires name in was.methods && name in was.lines && Cleaning(was, s, name, gone, inst)
    requires (forall r :: r in was.methods[name] ==> r.id in gone) &&
             (forall r :: r in was.lines[name] ==> r.id in gone)
    ensures gone == Recorded(was, name)
  {
    hide MethodsInstalled;
  }

  lemma {:induction false} ClearedAgrees(was: State, s: State, s': State, name: string, gone: set<Id>, inst: Installed,
                                         distinct: bool)
    requires Inv(was, distinct, None) && name in was.methods && name in was.lines
    requires Cleaning(was, s, name, gone, inst) && (distinct ==> CleaningExact(was, s, name, gone, inst))
    requires forall r :: r in was.methods[name] ==> r.id in gone
    requires distinct ==> forall r :: r in was.lines[name] ==> r.id in gone
    requires s' == s.(methods := s.methods[name := []], lines := s.lines[name := []])
    ensures Retired(was, s', gone, distinct)
  {
    hide QueueOk, DeferredAreQueued, OnePerMethod, MethodsOk, LinesOk, MethodsInstalled, LinesInstalled, Drop, Freed,
         SlotsOk, DistinctLines, LineRecsKnown, DropLine, RecordedIn;
    RecordedQueue(was, name, gone);
    RecordedMethods(was, name, gone);
    LessKnown(was.registry, was.nextId, was.lines, s'.lines, gone);
    EmptyMethodsInstalled(was.methods, inst, name);
    if distinct {
      ClearedLines(was, s, s'.lines, name, gone, inst);
      EmptyClassInstalled(s'.lines, inst, name);
    }
  }

  lemma {:induction false} ClearedLines(was: State, s: State, ls: Lines, name: string, gone: set<Id>, inst: Installed)
    requires name in was.lines && s.lines.Keys == was.lines.Keys && CleaningExact(was, s, name, gone, inst)
    requires (forall r :: r in was.lines[name] ==> r.id in gone) && ls == s.lines[name := []]
    ensures ls == Retire(was, gone).lines && s.slots == Retire(was, gone).slots
  {
    hide Drop, LinesInstalled;
    DropAll(was.lines[name], LineRecId, gone);
  }

  lemma {:induction false} EmptyMethodsInstalled(ms: Methods, inst: Installed, name: string)
    requires MethodsInstalled(ms, inst) && name in ms
    ensures MethodsInstalled(ms[name := []], inst[name := {}])
  {
  }

  lemma {:induction false} EmptyClassInstalled(ls: Lines, inst: Installed, name: string)
    requires LinesInstalled(ls, inst) && name in ls && ls[name] == []
    ensures LinesInstalled(ls, inst[name := {}])
  {
  }

  lemma {:induction false} CleaningStarts(was: State, s: State, name: string, distinct: bool)
    requires Inv(was, distinct, None) && name in was.methods && name in was.lines
    requires s == was.(installed := was.installed[name := {}])
    ensures Cleaning(was, s, name, {}, was.installed) && (distinct ==> CleaningExact(was, s, name, {}, was.installed))
  {
    RetireNothing(was);
    assert was.registry - {} == was.registry;
  }

  /** The new class could be instrumented, or has nothing to instrument. */
  lemma {:induction false} ReappliedKeeps(was: State, s': State, name: string, distinct: bool)
    requires Inv(was, distinct, None) && name in was.methods && name in was.lines
    requires s' == was.(installed := was.installed[name := Wanted(was.methods[name], was.lines[name])])
    ensures Retired(was, s', {}, distinct) && Inv(s', distinct, None)
  {
    hide QueueOk, DeferredAreQueued, OnePerMethod, MethodsOk, LinesOk, MethodsInstalled, LinesInstalled, SlotsOk,
         DistinctLines, LineRecsKnown, Wanted;
    RetireNothing(was);
    ReinstallKeepsMethods(was.methods, was.lines, was.installed, name);
    if distinct {
      ReinstallKeepsLines(was.methods, was.lines, was.installed, name);
    }
    RetiredKeeps(was, s', {}, distinct, None);
  }

  lemma {:induction false} CleaningLine(was: State, s: State, name: string, gone: set<Id>, inst: Installed, r: LineRec,
                                        distinct: bool)
    requires Inv(was, distinct, None) && name in was.methods && name in was.lines && r in was.lines[name]
    requires Cleaning(was, s, name, gone, inst)
    ensures s.methods.Keys == s.lines.Keys && (r.id in s.registry ==> LineAt(s.registry, r.id))
  {
  }

  lemma {:induction false} CleaningKeys(was: State, s: State, name: string, gone: set<Id>, inst: Installed)
    requires name in was.methods && name in was.lines && Cleaning(was, s, name, gone, inst)
    ensures s.lines.Keys == was.lines.Keys && s.methods == was.methods && s.queue == was.queue && s.nextId == was.nextId
    ensures RecordedIn(was, name, gone)
  {
  }

  lemma {:induction false} NothingRecorded(was: State, name: string)
    requires name in was.methods && name in was.lines
    ensures RecordedIn(was, name, {})
  {
  }

  lemma {:induction false} NothingWanted()
    ensures Wanted([], []) == {}
  {
  }

  lemma {:induction false} GoneConcern(was: State, name: string, gone: set<Id>, distinct: bool)
    requires Inv(was, distinct, None) && name in was.methods && name in was.lines && RecordedIn(was, name, gone)
    ensures forall id :: id in gone && id in was.registry ==> Concerns(was.registry[id], name)
  {
    forall id | id in gone && id in was.registry ensures Concerns(was.registry[id], name) {
      if r :| r in was.methods[name] && r.id == id {
        assert was.registry[r.id] == MethodEntry(name, r.sig, false);
      } else {
        var r :| r in was.lines[name] && r.id == id;
        assert was.registry[r.id].ClassOf(r.side) == name;
      }
    }
  }
}
