/**
 What rollback and removal come to. However an event fails or takes an
 instrument away, the new state is the old one without some instruments, up to
 inactive slots, numbers used up, and probes nobody has a record for.
 */
module RollbackLemmas {
  import opened Prelude
  import opened HandlerState
  import opened HandlerLemmas
  import opened RetireLemmas

  /** `s'` is `s` without the instruments `ids`. When lines are not distinct
      the line records and the slots of others may be hit as well. */
  ghost predicate Retired(s: State, s': State, ids: set<Id>, distinct: bool) {
    var r := Retire(s, ids);
    && s'.registry == r.registry && s'.queue == r.queue && s'.methods == r.methods
    && s.nextId <= s'.nextId
    && s'.lines.Keys == s.lines.Keys && LineRecsKnown(s'.registry, s'.nextId, s'.lines)
    && s'.installed.Keys == s.installed.Keys && MethodsInstalled(s'.methods, s'.installed)
    && (distinct ==> s'.lines == r.lines && SameActive(r.slots, s'.slots) && LinesInstalled(s'.lines, s'.installed))
  }

  lemma {:induction false} RetiredKeeps(s: State, s': State, ids: set<Id>, distinct: bool, loading: Option<string>)
    requires Inv(s, distinct, loading) && Retired(s, s', ids, distinct)
    ensures Inv(s', distinct, loading)
  {
    hide Drop, QueueOk, DeferredAreQueued, MethodsOk, OnePerMethod, MethodsInstalled, LinesInstalled, SlotsOk,
         LineRecsKnown;
    var r := Retire(s, ids);
    RetireKeeps(s, ids, distinct, loading);
    assert s'.methods.Keys == s.methods.Keys == r.methods.Keys;
    assert IdsOk(s'.registry, s'.nextId);
    if distinct {
      SameSlotsOk(r.registry.Keys, r.slots, s'.slots);
    }
  }

  /** Besides records that were there before, only ones of a number no longer in use. */
  ghost predicate FewerBut(ls: Lines, ls': Lines, id: Id) {
    && ls.Keys == ls'.Keys
    && forall c, r {:trigger r in ls'[c]} :: c in ls' && r in ls'[c] ==> r in ls[c] || r.id == id
  }

  lemma {:induction false} FewerKnown(reg: Registry, n: Id, n': Id, ls: Lines, ls': Lines, id: Id)
    requires LineRecsKnown(reg, n, ls) && FewerBut(ls, ls', id) && n <= n' && 0 < id < n'
    ensures LineRecsKnown(reg - {id}, n', ls')
  {
  }

  /** Nothing of a number that was never given out can be dropped. */
  lemma {:induction false} RetireNothing(s: State)
    ensures Retire(s, {}) == s
  {
    DropNone(s.queue, ItemId, {});
    forall c | c in s.methods ensures Drop(s.methods[c], MethodRecId, {}) == s.methods[c] {
      DropNone(s.methods[c], MethodRecId, {});
    }
    forall c | c in s.lines ensures Drop(s.lines[c], LineRecId, {}) == s.lines[c] {
      DropNone(s.lines[c], LineRecId, {});
    }
    var r := Retire(s, {});
    assert r.methods == s.methods && r.lines == s.lines;
    assert r.slots == s.slots;
    assert r.registry == s.registry;
  }

  // ----- records added and dropped again -----

  /** No record sits on either of the entry's lines. */
  ghost predicate Vacant(ls: Lines, e: Entry)
    requires e.LineEntry?
  {
    forall c, r, side: Side {:trigger r in ls[c], e.ClassOf(side)} ::
      c in ls && r in ls[c] && c == e.ClassOf(side) ==> r.line != e.LineOf(side)
  }

  lemma {:induction false} ApartIsVacant(s: State, e: Entry)
    requires Full(s) && e.LineEntry? && Apart(s.registry, e)
    ensures Vacant(s.lines, e)
  {
    forall c, r, side: Side | c in s.lines && r in s.lines[c] && c == e.ClassOf(side) ensures r.line != e.LineOf(side) {
      assert LineRecOk(s.registry, c, r) && LineAt(s.registry, r.id);
      assert NoSharedPlace(s.registry[r.id], e);
    }
  }

  /** Rolling back a line instrument's two new records restores the lists if and
      only if no other record sits on its lines. */
  lemma {:induction false} AddThenDropLines(ls: Lines, e: Entry, id: Id, slot: nat)
    requires e.LineEntry? && e.cls in ls && e.exitCls in ls
    requires forall c, r {:trigger r in ls[c]} :: c in ls && r in ls[c] ==> r.id != id
    ensures DropLines(AddLines(ls, e, id, slot), e) == ls <==> Vacant(ls, e)
  {
    hide DropLine;
    var enter, exit := LineRec(e.line, slot, id, Enter), LineRec(e.exitLine, slot, id, Exit);
    var a, b := ls[e.cls], ls[e.exitCls];
    var now := DropLines(AddLines(ls, e, id, slot), e);
    assert Vacant(ls, e) <==>
           (forall r :: r in a ==> r.line != e.line) && (forall r :: r in b ==> r.line != e.exitLine) by {
      assert e.ClassOf(Enter) == e.cls && e.ClassOf(Exit) == e.exitCls;
      assert e.LineOf(Enter) == e.line && e.LineOf(Exit) == e.exitLine;
    }
    if e.cls == e.exitCls {
      AddBothDropBoth(a, enter, exit);
      assert now[e.cls] == DropLine(DropLine(a + [enter] + [exit], e.line), e.exitLine);
      assert now == ls <==> now[e.cls] == a;
    } else {
      AddThenDropLine(a, enter);
      AddThenDropLine(b, exit);
      assert now[e.cls] == DropLine(a + [enter], e.line) && now[e.exitCls] == DropLine(b + [exit], e.exitLine);
      assert now == ls <==> now[e.cls] == a && now[e.exitCls] == b;
    }
  }

  lemma {:induction false} AddBothDropBoth(ls: seq<LineRec>, enter: LineRec, exit: LineRec)
    requires forall r :: r in ls ==> r.id != enter.id
    requires enter.id == exit.id && enter.side != exit.side
    ensures DropLine(DropLine(ls + [enter] + [exit], enter.line), exit.line) == ls <==>
            forall r :: r in ls ==> r.line != enter.line && r.line != exit.line
  {
    var all := ls + [enter] + [exit];
    var p := FindLine(all, enter.line);
    assert all[|ls|] == enter && all[|ls| + 1] == exit;
    var w := Without(all, p);
    var q := FindLine(w, exit.line);
    if p == |ls| {
      assert w == ls + [exit];
      AddThenDropLine(ls, exit);
      forall r | r in ls ensures r.line != enter.line {
        var k :| 0 <= k < |ls| && ls[k] == r;
        assert all[k] == r;
      }
    } else {
      assert ls[p] in ls && all[p] == ls[p];
      assert w[|ls| - 1] == enter && w[|ls|] == exit;
      var v := DropLine(w, exit.line);
      assert |v| == |ls|;
      assert v[|ls| - 1] in {enter, exit};
    }
  }

  /** Once the first record is in, a failure to make the second drops the first. */
  lemma {:induction false} AddThenDropFirst(ls: Lines, e: Entry, id: Id, slot: nat)
    requires e.LineEntry? && e.cls in ls
    requires forall c, r {:trigger r in ls[c]} :: c in ls && r in ls[c] ==> r.id != id
    ensures Vacant(ls, e) ==> DropLine(ls[e.cls] + [LineRec(e.line, slot, id, Enter)], e.line) == ls[e.cls]
    ensures forall r :: r in DropLine(ls[e.cls] + [LineRec(e.line, slot, id, Enter)], e.line) ==>
            r in ls[e.cls] || r.id == id
  {
    var enter := LineRec(e.line, slot, id, Enter);
    AddThenDropLine(ls[e.cls], enter);
    if Vacant(ls, e) {
      assert e.ClassOf(Enter) == e.cls && e.LineOf(Enter) == e.line;
    }
  }

  // ----- reinstalling more than the records ask for -----

  lemma {:induction false} InstallMore(ms: Methods, ls: Lines, ls': Lines, installed: Installed, cls: string)
    requires LinesInstalled(ls, installed) && cls in ms && cls in ls && ls'.Keys == ls.Keys
    requires forall r :: r in ls[cls] ==> r in ls'[cls]
    ensures LinesInstalled(ls, Reinstalled(installed, ms, ls', cls))
  {
    var installed' := Reinstalled(installed, ms, ls', cls);
    forall c, r | c in ls && r in ls[c] ensures c in installed' && LineProbe(r.line, r.slot, r.side) in installed'[c] {
      assert c in installed;
      if c == cls { WantedHasLine(ms[cls], ls'[cls], r); }
    }
  }

  // ----- a line instrument that could not be installed -----

  /** What is left of making the records of `e`, installing them and failing. */
  ghost predicate LineUndone(s: State, s': State, e: Entry, id: Id, slot: nat)
    requires e.LineEntry? && e.cls in s.methods && e.exitCls in s.methods && s.methods.Keys == s.lines.Keys
  {
    && s' == s.(registry := s.registry - {id}, slots := Freed(s.slots, slot), lines := s'.lines,
                installed := s'.installed)
    && FewerBut(s.lines, s'.lines, id)
    && (Vacant(s.lines, e) ==> s'.lines == s.lines)
    && (s'.installed == s.installed ||
        s'.installed == Reinstalled(s.installed, s.methods, AddLines(s.lines, e, id, slot), e.cls))
  }

  lemma {:induction false} UndoneInstalled(s: State, s': State, e: Entry, id: Id, slot: nat, distinct: bool)
    requires e.LineEntry? && e.cls in s.methods && e.exitCls in s.methods &&
             s.methods.Keys == s.lines.Keys == s.installed.Keys
    requires LineUndone(s, s', e, id, slot) && MethodsInstalled(s.methods, s.installed)
    ensures s'.installed.Keys == s.installed.Keys && MethodsInstalled(s.methods, s'.installed)
    ensures LinesInstalled(s.lines, s.installed) ==> LinesInstalled(s.lines, s'.installed)
  {
    hide Wanted, MethodsInstalled, LinesInstalled;
    var more := AddLines(s.lines, e, id, slot);
    if s'.installed != s.installed {
      ReinstallKeepsMethods(s.methods, more, s.installed, e.cls);
      AddLinesContents(s.lines, e, id, slot);
      if LinesInstalled(s.lines, s.installed) {
        InstallMore(s.methods, s.lines, more, s.installed, e.cls);
      }
    }
  }
}
