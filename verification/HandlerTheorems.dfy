/**
 What the handler's invariant says of one instrument, and exactly when taking
 a line instrument away by line number is right.
 */
module HandlerTheorems {
  import opened Prelude
  import opened HandlerState
  import opened HandlerLemmas
  import opened RetireLemmas
  import opened HandlerOutcomes

  /** Exactly one element of `s` is such. */
  ghost predicate One<T>(s: seq<T>, such: T -> bool) {
    exists p :: 0 <= p < |s| && such(s[p]) && forall q :: 0 <= q < |s| && such(s[q]) ==> q == p
  }

  ghost predicate NoSuch<T>(s: seq<T>, such: T -> bool) { forall p :: 0 <= p < |s| ==> !such(s[p]) }

  lemma {:induction false} OneFrom<T>(s: seq<T>, such: T -> bool, x: T)
    requires x in s && such(x)
    requires forall p, q :: 0 <= p < q < |s| ==> !(such(s[p]) && such(s[q]))
    ensures One(s, such)
  {
    var p :| 0 <= p < |s| && s[p] == x;
    assert forall q :: 0 <= q < |s| && such(s[q]) ==> q == p;
  }

  function OfItem(id: Id): Item -> bool { (it: Item) => it.id == id }

  function OfSide(id: Id, side: Side): Item -> bool { (it: Item) => it.id == id && it.LineItem? && it.side == side }

  function OfMethod(id: Id): MethodRec -> bool { (r: MethodRec) => r.id == id }

  function OfLine(id: Id): LineRec -> bool { (r: LineRec) => r.id == id }

  function OfLineSide(id: Id, side: Side): LineRec -> bool { (r: LineRec) => r.id == id && r.side == side }

  /** A deferred method has exactly one queue item and no record; any other has
      exactly one record, in its class, and no queue item. */
  lemma {:induction false} MethodIsInOnePlace(s: State, id: Id)
    requires Base(s, None) && MethodAt(s.registry, id)
    ensures s.registry[id].deferred ==>
            One(s.queue, OfItem(id)) && forall c :: c in s.methods ==> NoSuch(s.methods[c], OfMethod(id))
    ensures !s.registry[id].deferred ==>
              && NoSuch(s.queue, OfItem(id)) && s.registry[id].cls in s.methods &&
                 One(s.methods[s.registry[id].cls], OfMethod(id))
              && forall c :: c in s.methods && c != s.registry[id].cls ==> NoSuch(s.methods[c], OfMethod(id))
  {
    var e := s.registry[id];
    assert forall p :: 0 <= p < |s.queue| ==>
           s.queue[p] in s.queue && ItemOk(s.registry, s.methods.Keys, s.queue[p], None);
    assert forall c, p :: c in s.methods && 0 <= p < |s.methods[c]| ==> s.methods[c][p] in s.methods[c];
    if e.deferred {
      assert HasMethodItem(s.queue, id);
      var it :| it in s.queue && it.id == id && it.MethodItem?;
      forall p, q | 0 <= p < q < |s.queue| ensures !(s.queue[p].id == id && s.queue[q].id == id) {
        assert !SameTask(s.queue[p], s.queue[q]);
      }
      OneFrom(s.queue, OfItem(id), it);
    } else {
      assert HasMethodRec(s.methods, e.cls, id);
      var r :| r in s.methods[e.cls] && r.id == id;
      OneFrom(s.methods[e.cls], OfMethod(id), r);
    }
  }

  /** A side of a line waits exactly if it has its one queue item. */
  lemma {:induction false} SideWaitsIffQueued(s: State, id: Id, side: Side)
    requires Base(s, None) && LineAt(s.registry, id)
    ensures s.registry[id].Waiting(side) <==> One(s.queue, OfSide(id, side))
    ensures !s.registry[id].Waiting(side) <==> NoSuch(s.queue, OfSide(id, side))
  {
    hide MethodsOk, OnePerMethod, LineClassesOk, LineRecsKnown, MethodsInstalled, OneSlotEach;
    var such := OfSide(id, side);
    if s.registry[id].Waiting(side) {
      assert HasLineItem(s.queue, id, side);
      var it :| it in s.queue && it.id == id && it.LineItem? && it.side == side;
      forall p, q | 0 <= p < q < |s.queue| ensures !(such(s.queue[p]) && such(s.queue[q])) {
        assert !SameTask(s.queue[p], s.queue[q]);
      }
      OneFrom(s.queue, such, it);
    } else {
      forall p | 0 <= p < |s.queue| ensures !such(s.queue[p]) {
        assert s.queue[p] in s.queue && ItemOk(s.registry, s.methods.Keys, s.queue[p], None);
      }
    }
    assert One(s.queue, such) ==> !NoSuch(s.queue, such);
  }

  /** A ready line has exactly its two records, each in its class and on its
      line; any other line has none. */
  lemma {:induction false} LineRecordsExact(s: State, id: Id, side: Side)
    requires Full(s) && LineAt(s.registry, id)
    ensures s.registry[id].Ready() ==>
              && s.registry[id].ClassOf(side) in s.lines &&
                 One(s.lines[s.registry[id].ClassOf(side)], OfLineSide(id, side))
              && forall c, r {:trigger r in s.lines[c]} ::
                   c in s.lines && r in s.lines[c] && r.id == id && r.side == side ==>
                   c == s.registry[id].ClassOf(side) && r.line == s.registry[id].LineOf(side)
    ensures !s.registry[id].Ready() ==> forall c :: c in s.lines ==> NoSuch(s.lines[c], OfLine(id))
  {
    var e := s.registry[id];
    if e.Ready() {
      assert HasLineRec(s.lines, e.ClassOf(side), id, side);
      var ls := s.lines[e.ClassOf(side)];
      var r :| r in ls && r.id == id && r.side == side;
      assert OneRecPerSide(ls);
      OneFrom(ls, OfLineSide(id, side), r);
      forall c, x | c in s.lines && x in s.lines[c] && x.id == id && x.side == side
        ensures c == e.ClassOf(side) && x.line == e.LineOf(side)
      {
        assert LineRecOk(s.registry, c, x);
      }
    } else {
      NoRecsYet(s.registry, s.lines, id);
    }
  }

  /** Read off the slots: the active ones carry exactly the live numbers, each once. */
  lemma {:induction false} SlotsAreABijection(s: State)
    requires Full(s)
    ensures forall i :: i in ActiveSlots(s.slots) ==> ActiveSlots(s.slots)[i] in s.registry
    ensures forall i, j :: i in ActiveSlots(s.slots) && j in ActiveSlots(s.slots) && i != j ==>
            ActiveSlots(s.slots)[i] != ActiveSlots(s.slots)[j]
    ensures forall id :: id in s.registry ==> exists i :: i in ActiveSlots(s.slots) && ActiveSlots(s.slots)[i] == id
  {
    var active := ActiveSlots(s.slots);
    assert forall i :: i in active ==> Owns(s.slots, i, active[i]);
    forall id | id in s.registry ensures exists i :: i in active && active[i] == id {
      assert HasSlot(s.slots, id);
      var i :| Owns(s.slots, i, id);
      assert i in active && active[i] == id;
    }
  }

  // ----- dropping by line number -----

  lemma {:induction false} FirstIsOwnIff(ls: seq<LineRec>, id: Id, line: int, r: LineRec)
    requires OneRecPerSide(ls) && r in ls && r.id == id && r.line == line
    requires forall x :: x in ls && x.id == id ==> x == r
    ensures DropLine(ls, line) == Drop(ls, LineRecId, {id}) <==> ls[FindLine(ls, line)].id == id
  {
    hide Drop;
    var p := FindLine(ls, line);
    var k :| 0 <= k < |ls| && ls[k] == r;
    assert p < |ls|;
    DropIn(ls, LineRecId, {id});
    var w := Without(ls, p);
    assert forall q :: 0 <= q < |w| ==> w[q] == ls[if q < p then q else q + 1];
    if ls[p].id == id {
      DropWithout(ls, LineRecId, {id}, p);
      forall x | x in w ensures x.id != id {
        var q :| 0 <= q < |w| && w[q] == x;
        var a := if q < p then q else q + 1;
        assert ls[a] in ls && ls[p] in ls;
      }
      DropNone(w, LineRecId, {id});
    } else {
      Unrepeated(ls, p);
      assert ls[p] in Drop(ls, LineRecId, {id}) && ls[p] !in w;
    }
  }

  lemma {:induction false} Unrepeated(ls: seq<LineRec>, p: nat)
    requires OneRecPerSide(ls) && p < |ls|
    ensures ls[p] !in Without(ls, p)
  {
    var w := Without(ls, p);
    forall q | 0 <= q < |w| ensures w[q] != ls[p] {
      var a := if q < p then q else q + 1;
      assert w[q] == ls[a] && a != p;
    }
  }

  /** Deinstrumenting a line across two classes drops exactly its own records if
      and only if the first record on each of its lines is its own. Lines need
      not be distinct for this. */
  lemma {:induction false} CrossClassDropIsRightIff(s: State, id: Id)
    requires LinesOk(s.registry, s.lines) && LineAt(s.registry, id) && s.registry[id].Ready()
    requires s.registry[id].cls != s.registry[id].exitCls
    ensures var e := s.registry[id];
            && e.cls in s.lines && e.exitCls in s.lines
            && FindLine(s.lines[e.cls], e.line) < |s.lines[e.cls]| &&
               FindLine(s.lines[e.exitCls], e.exitLine) < |s.lines[e.exitCls]|
            && (DropLines(s.lines, e) == Retire(s, {id}).lines <==>
                s.lines[e.cls][FindLine(s.lines[e.cls], e.line)].id == id &&
                s.lines[e.exitCls][FindLine(s.lines[e.exitCls], e.exitLine)].id == id)
  {
    hide Drop, FindLine, DropLine;
    var e := s.registry[id];
    var r := OwnRecord(s, id, Enter);
    var x := OwnRecord(s, id, Exit);
    assert e.ClassOf(Enter) == e.cls && e.ClassOf(Exit) == e.exitCls;
    FirstIsOwnIff(s.lines[e.cls], id, e.line, r);
    FirstIsOwnIff(s.lines[e.exitCls], id, e.exitLine, x);
    var now, want := DropLines(s.lines, e), Retire(s, {id}).lines;
    forall c | c in s.lines && c != e.cls && c != e.exitCls ensures now[c] == want[c] {
      forall y | y in s.lines[c] ensures y.id != id {
        assert LineRecOk(s.registry, c, y);
      }
      DropNone(s.lines[c], LineRecId, {id});
    }
    assert now == want <==> now[e.cls] == want[e.cls] && now[e.exitCls] == want[e.exitCls] by {
      assert now.Keys == want.Keys;
    }
  }

  lemma {:induction false} OwnRecord(s: State, id: Id, side: Side) returns (r: LineRec)
    requires LinesOk(s.registry, s.lines) && LineAt(s.registry, id) && s.registry[id].Ready()
    requires s.registry[id].cls != s.registry[id].exitCls
    ensures var e := s.registry[id];
            && e.ClassOf(side) in s.lines && OneRecPerSide(s.lines[e.ClassOf(side)])
            && r in s.lines[e.ClassOf(side)] && r.id == id && r.line == e.LineOf(side)
            && FindLine(s.lines[e.ClassOf(side)], e.LineOf(side)) < |s.lines[e.ClassOf(side)]|
            && forall x :: x in s.lines[e.ClassOf(side)] && x.id == id ==> x == r
  {
    var e := s.registry[id];
    assert HasLineRec(s.lines, e.ClassOf(side), id, side);
    var ls := s.lines[e.ClassOf(side)];
    assert OneRecPerSide(ls);
    r :| r in ls && r.id == id && r.side == side;
    assert LineRecOk(s.registry, e.ClassOf(side), r);
    var k :| 0 <= k < |ls| && ls[k] == r;
    forall x | x in ls && x.id == id ensures x == r {
      assert LineRecOk(s.registry, e.ClassOf(side), x);
      var j :| 0 <= j < |ls| && ls[j] == x;
      assert x.side == side;
    }
  }

  /** Within one class: the first record on the enter line is its own, and once
      that is gone so is the first one on the exit line. */
  lemma {:induction false} OneClassDropIsRightIff(s: State, id: Id)
    requires LinesOk(s.registry, s.lines) && LineAt(s.registry, id) && s.registry[id].Ready()
    requires s.registry[id].cls == s.registry[id].exitCls
    ensures var e := s.registry[id];
            && e.cls in s.lines && FindLine(s.lines[e.cls], e.line) < |s.lines[e.cls]|
            && (DropLines(s.lines, e) == Retire(s, {id}).lines <==>
                && s.lines[e.cls][FindLine(s.lines[e.cls], e.line)].id == id
                && var w := DropLine(s.lines[e.cls], e.line);
                   FindLine(w, e.exitLine) < |w| && w[FindLine(w, e.exitLine)].id == id)
  {
    hide Drop, FindLine, LinesOk;
    var e := s.registry[id];
    OneClassDecides(s, id);
    var ls := s.lines[e.cls];
    TwoDropsAreOwnIff(ls, id, e.line, e.exitLine);
    if ls[FindLine(ls, e.line)].id == id {
      var q := OtherSideIsFound(s.registry, s.lines, id, FindLine(ls, e.line));
    }
  }

  /** In the other classes there is nothing to drop; in its own there is a record on its enter line. */
  lemma {:induction false} OneClassDecides(s: State, id: Id)
    requires LinesOk(s.registry, s.lines) && LineAt(s.registry, id) && s.registry[id].Ready()
    requires s.registry[id].cls == s.registry[id].exitCls
    ensures var e := s.registry[id];
            && e.cls in s.lines && FindLine(s.lines[e.cls], e.line) < |s.lines[e.cls]| && OneRecPerSide(s.lines[e.cls])
            && (DropLines(s.lines, e) == Retire(s, {id}).lines <==>
                DropLine(DropLine(s.lines[e.cls], e.line), e.exitLine) == Drop(s.lines[e.cls], LineRecId, {id}))
  {
    hide Drop, FindLine, DropLine;
    var e := s.registry[id];
    assert e.ClassOf(Enter) == e.cls && HasLineRec(s.lines, e.cls, id, Enter);
    var ls := s.lines[e.cls];
    var r :| r in ls && r.id == id && r.side == Enter;
    assert LineRecOk(s.registry, e.cls, r);
    var k :| 0 <= k < |ls| && ls[k] == r;
    var now, want := DropLines(s.lines, e), Retire(s, {id}).lines;
    forall c | c in s.lines && c != e.cls ensures now[c] == want[c] {
      forall y | y in s.lines[c] ensures y.id != id {
        assert LineRecOk(s.registry, c, y);
      }
      DropNone(s.lines[c], LineRecId, {id});
    }
    assert now == want <==> now[e.cls] == want[e.cls] by {
      assert now.Keys == want.Keys;
    }
  }

  lemma {:induction false} TwoDropsAreOwnIff(ls: seq<LineRec>, id: Id, line: int, exitLine: int)
    requires OneRecPerSide(ls) && FindLine(ls, line) < |ls|
    ensures DropLine(DropLine(ls, line), exitLine) == Drop(ls, LineRecId, {id}) ==>
              && ls[FindLine(ls, line)].id == id
              && (FindLine(DropLine(ls, line), exitLine) < |DropLine(ls, line)| ==>
                  DropLine(ls, line)[FindLine(DropLine(ls, line), exitLine)].id == id)
    ensures && ls[FindLine(ls, line)].id == id
            && FindLine(DropLine(ls, line), exitLine) < |DropLine(ls, line)|
            && DropLine(ls, line)[FindLine(DropLine(ls, line), exitLine)].id == id ==>
              DropLine(DropLine(ls, line), exitLine) == Drop(ls, LineRecId, {id})
  {
    hide Drop, FindLine, OneRecPerSide;
    var p := FindLine(ls, line);
    var w := Without(ls, p);
    var q := FindLine(w, exitLine);
    DropIn(ls, LineRecId, {id});
    Unrepeated(ls, p);
    StillOnePerSide(ls, p);
    if q < |w| {
      Unrepeated(w, q);
      assert w[q] in ls by { assert w[q] == ls[if q < p then q else q + 1]; }
      assert forall x :: x in Without(w, q) ==> x in w;
      if ls[p].id == id && w[q].id == id {
        DropWithout(ls, LineRecId, {id}, p);
        DropWithout(w, LineRecId, {id}, q);
        NoThirdRecord(ls, id, p, q);
        DropNone(Without(w, q), LineRecId, {id});
      }
    }
  }

  lemma {:induction false} StillOnePerSide(ls: seq<LineRec>, p: nat)
    requires OneRecPerSide(ls) && p < |ls|
    ensures OneRecPerSide(Without(ls, p))
  {
  }

  /** The slot freed with a line is the one named by the first record on its enter
      line: its own if and only if that record is. */
  lemma {:induction false} FreedSlotIsOwnIff(s: State, s': State, id: Id, slot: int, done: set<string>)
    requires LineSlots(s.lines, s.slots) && LineAt(s.registry, id) && s.methods.Keys == s.lines.Keys
    requires s.registry[id].cls in s.methods && s.registry[id].exitCls in s.methods &&
             LineTaken(s, s', s.registry[id], id, slot, done)
    ensures var ls, line := s.lines[s.registry[id].cls], s.registry[id].line;
            Owns(s.slots, slot, id) <==> FindLine(ls, line) < |ls| && ls[FindLine(ls, line)].id == id
  {
    hide FindLine, DropLine, ReinstalledAll;
    var ls, line := s.lines[s.registry[id].cls], s.registry[id].line;
    var p := FindLine(ls, line);
    if p < |ls| {
      assert ls[p] in ls && Owns(s.slots, slot, ls[p].id);
    }
  }

  // ----- concrete cases -----

  function Loaded(names: set<string>): State {
    State(map[], 1, [], map c | c in names :: [], map c | c in names :: [], [], map c | c in names :: {})
  }

  /** Two line instruments with the same enter line, made one after the other. */
  function TwoOnOneLine(): (s: State)
    ensures s.methods.Keys == s.lines.Keys == {"A", "B"}
  {
    var s := NewLineApplied(Loaded({"A", "B"}), LineEntry("A", "B", 7, 9, true, true), [Slot(true, 1)], 0);
    NewLineApplied(s, LineEntry("A", "B", 7, 11, true, true), [Slot(true, 1), Slot(true, 2)], 1)
  }

  /** Taking the second of them away takes the first one's enter record and its
      slot; the second one's record and slot stay behind without an entry. */
  lemma {:induction false} SharedLineExample(s': State, slot: int, done: set<string>)
    requires LineTaken(TwoOnOneLine(), s', LineEntry("A", "B", 7, 11, false, false), 2, slot, done)
    ensures s'.registry == map[1 := LineEntry("A", "B", 7, 9, false, false)]
    ensures s'.slots == [Slot(false, 1), Slot(true, 2)]
    ensures s'.lines == map["A" := [LineRec(7, 1, 2, Enter)], "B" := [LineRec(9, 0, 1, Exit)]]
  {
    hide ReinstalledAll, TwoOnOneLine, DropLine, FindLine;
    TwoOnOneLineIs();
    var s := TwoOnOneLine();
    var a, b := s.lines["A"], s.lines["B"];
    FirstDropped(a, 7);
    SecondDropped(b, 11);
    assert s'.lines == map["A" := [a[1]], "B" := [b[0]]];
    assert s.registry - {2} == s'.registry;
  }

  lemma {:induction false} FirstDropped(ls: seq<LineRec>, line: int)
    requires |ls| == 2 && ls[0].line == line
    ensures FindLine(ls, line) == 0 && DropLine(ls, line) == [ls[1]]
  {
  }

  lemma {:induction false} SecondDropped(ls: seq<LineRec>, line: int)
    requires |ls| == 2 && ls[0].line != line && ls[1].line == line
    ensures FindLine(ls, line) == 1 && DropLine(ls, line) == [ls[0]]
  {
    assert ls[1..][0].line == line;
  }

  lemma {:induction false} TwoOnOneLineIs()
    ensures var s := TwoOnOneLine();
            && s.registry == map[1 := LineEntry("A", "B", 7, 9, false, false),
                                 2 := LineEntry("A", "B", 7, 11, false, false)]
            && s.lines["A"] == [LineRec(7, 0, 1, Enter), LineRec(7, 1, 2, Enter)]
            && s.lines["B"] == [LineRec(9, 0, 1, Exit), LineRec(11, 1, 2, Exit)]
            && s.slots == [Slot(true, 1), Slot(true, 2)]
  {
    hide Wanted, Reinstalled;
  }

  /** A line instrument made in a loaded class. */
  function OneLine(): (s: State)
    ensures s.methods.Keys == s.lines.Keys == {"A"}
  {
    NewLineApplied(Loaded({"A"}), LineEntry("A", "A", 3, 5, true, true), [Slot(true, 1)], 0)
  }

  lemma {:induction false} OneLineAgrees()
    ensures Inv(OneLine(), true, None)
  {
    hide Inv, Wanted;
    var start, e := Loaded({"A"}), LineEntry("A", "A", 3, 5, true, true);
    NothingAgrees({"A"});
    NewLineAppliedKeeps(start, e, [Slot(true, 1)], 0, true);
    assert Apart(start.registry, e);
  }

  lemma {:induction false} NothingAgrees(names: set<string>)
    ensures Inv(Loaded(names), true, None)
  {
  }

  lemma {:induction false} OneLineIs()
    ensures var s := OneLine();
            && s.registry == map[1 := LineEntry("A", "A", 3, 5, false, false)]
            && s.lines["A"] == [LineRec(3, 0, 1, Enter), LineRec(5, 0, 1, Exit)] && s.slots == [Slot(true, 1)]
            && "A" in s.installed && LineProbe(3, 0, Enter) in s.installed["A"]
  {
    hide Wanted;
    var s := OneLine();
    assert s.lines["A"] == [LineRec(3, 0, 1, Enter), LineRec(5, 0, 1, Exit)];
    WantedHasLine([], s.lines["A"], LineRec(3, 0, 1, Enter));
  }

  /** Lines are distinct and everything agrees; taking the line away is answered OK
      when the JVM has refused the new bytecode, and its probe stays installed while
      its slot goes to the next instrument. */
  lemma {:induction false} LineProbeStaysExample() returns (s': State)
    ensures Inv(OneLine(), true, None) && 1 in OneLine().registry
    ensures LineTaken(OneLine(), s', OneLine().registry[1], 1, 0, {}) && BytecodeTaken(OneLine(), s', 1, {})
    ensures Answer(OneLine().registry, 1, {"A"}, {})
    ensures "A" in s'.installed && LineProbe(3, 0, Enter) in s'.installed["A"]
    ensures Created(s'.slots, [Slot(true, 2)], 0, 2)
  {
    hide Inv, Wanted, FindLine, DropLine, OneLine;
    OneLineAgrees();
    OneLineIs();
    var s, e := OneLine(), LineEntry("A", "A", 3, 5, false, false);
    var ls := s.lines["A"];
    assert FindLine(ls, 3) == 0 by { assert ls[0].line == 3; }
    s' := s.(registry := map[], slots := [Slot(false, 1)], lines := DropLines(s.lines, e));
    assert Freed(s.slots, 0) == s'.slots && s.registry - {1} == s'.registry;
    ReinstalledOne(s.installed, s.methods, s'.lines, "A");
    LineTakenBytecode(s, s', 1, 0, {});
  }

  // ----- what the shared notions mean -----

  /** After a class is reinstalled the probes in it are those of its records and no other. */
  lemma {:induction false} ReinstalledIsExact(installed: Installed, ms: Methods, ls: Lines, done: set<string>,
                                              c: string, p: Probe)
    requires done <= ms.Keys && done <= ls.Keys && c in done
    ensures p in ReinstalledAll(installed, ms, ls, done)[c] <==>
            || (exists m :: m in ms[c] && p == MethodProbe(m.sig, m.slot))
            || (exists r :: r in ls[c] && p == LineProbe(r.line, r.slot, r.side))
  {
  }

  /** Distinct lines: no two live line instruments have an enter or exit line in common. */
  lemma {:induction false} DistinctLinesIff(reg: Registry)
    ensures DistinctLines(reg) <==>
            forall a, b :: LineAt(reg, a) && LineAt(reg, b) && a != b ==>
              && (reg[a].cls, reg[a].line) != (reg[b].cls, reg[b].line)
              && (reg[a].cls, reg[a].line) != (reg[b].exitCls, reg[b].exitLine)
              && (reg[a].exitCls, reg[a].exitLine) != (reg[b].exitCls, reg[b].exitLine)
  {
    forall a, b | LineAt(reg, a) && LineAt(reg, b) && a != b
      ensures NoSharedPlace(reg[a], reg[b]) <==>
              && (reg[a].cls, reg[a].line) != (reg[b].cls, reg[b].line)
              && (reg[a].cls, reg[a].line) != (reg[b].exitCls, reg[b].exitLine)
              && (reg[a].exitCls, reg[a].exitLine) != (reg[b].cls, reg[b].line)
              && (reg[a].exitCls, reg[a].exitLine) != (reg[b].exitCls, reg[b].exitLine)
    {
      PlacesApart(reg[a], reg[b]);
    }
  }

  lemma {:induction false} PlacesApart(e: Entry, f: Entry)
    requires e.LineEntry? && f.LineEntry?
    ensures NoSharedPlace(e, f) <==>
            && (e.cls, e.line) != (f.cls, f.line) && (e.cls, e.line) != (f.exitCls, f.exitLine)
            && (e.exitCls, e.exitLine) != (f.cls, f.line) && (e.exitCls, e.exitLine) != (f.exitCls, f.exitLine)
  {
    assert e.ClassOf(Enter) == e.cls && e.ClassOf(Exit) == e.exitCls && e.LineOf(Enter) == e.line;
    assert f.ClassOf(Enter) == f.cls && f.ClassOf(Exit) == f.exitCls && f.LineOf(Enter) == f.line;
    assert e.LineOf(Exit) == e.exitLine && f.LineOf(Exit) == f.exitLine;
  }

  /** A request keeps away from the live ones exactly if its two places are none of theirs. */
  lemma {:induction false} ApartIff(reg: Registry, e: Entry)
    requires e.LineEntry?
    ensures Apart(reg, e) <==>
            forall a :: LineAt(reg, a) ==>
              && (reg[a].cls, reg[a].line) != (e.cls, e.line)
              && (reg[a].cls, reg[a].line) != (e.exitCls, e.exitLine)
              && (reg[a].exitCls, reg[a].exitLine) != (e.cls, e.line)
              && (reg[a].exitCls, reg[a].exitLine) != (e.exitCls, e.exitLine)
  {
    forall a | LineAt(reg, a) ensures NoSharedPlace(reg[a], e) <==> NoSharedPlace(e, reg[a]) {
      PlacesApart(reg[a], e);
      PlacesApart(e, reg[a]);
    }
    forall a | LineAt(reg, a)
      ensures NoSharedPlace(reg[a], e) <==>
              && (reg[a].cls, reg[a].line) != (e.cls, e.line)
              && (reg[a].cls, reg[a].line) != (e.exitCls, e.exitLine)
              && (reg[a].exitCls, reg[a].exitLine) != (e.cls, e.line)
              && (reg[a].exitCls, reg[a].exitLine) != (e.exitCls, e.exitLine)
    {
      PlacesApart(reg[a], e);
    }
  }
}
