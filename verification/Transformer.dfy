/**
 The pass as it runs: adapters that receive a method body instruction by
 instruction and emit the instrumented one, and the count of matched requests
 that decides whether the class is transformed at all.
 */
module Transformer {
  import opened Prelude
  import opened MethodBody
  import opened Instrumenter

  datatype Method = Method(sig: string, body: Body)

  datatype Outcome = InvalidType | NotAllMatched | Transformed(methods: seq<Method>)

  function Sigs(ms: seq<Method>): set<string> { set k | 0 <= k < |ms| :: ms[k].sig }

  predicate HasLine(code: seq<Instr>, n: int) { Line(n) in code }

  /** Line `n` has a marker in some method of the class. */
  ghost predicate ClassHasLine(ms: seq<Method>, n: int) {
    exists k :: 0 <= k < |ms| && HasLine(ms[k].body.code, n)
  }

  function PlanFor(methodIds: map<string, int>, lines: map<int, seq<LineInstrument>>, sig: string): Plan {
    Plan(if sig in methodIds then Some(methodIds[sig]) else None, lines)
  }

  function InstrumentAll(methodIds: map<string, int>, lines: map<int, seq<LineInstrument>>,
                         ms: seq<Method>): seq<Method> {
    seq(|ms|, k requires 0 <= k < |ms| =>
      Method(ms[k].sig, Instrument(PlanFor(methodIds, lines, ms[k].sig), ms[k].body)))
  }

  /** Later requests for the same signature replace earlier ones, as `HashMap.put` does. */
  function MethodTable(sigs: seq<string>, ids: seq<int>): (r: map<string, int>)
    requires |sigs| == |ids|
    ensures r.Keys == set k | 0 <= k < |sigs| :: sigs[k]
  {
    if sigs == [] then map[]
    else MethodTable(sigs[..|sigs| - 1], ids[..|ids| - 1])[sigs[|sigs| - 1] := ids[|ids| - 1]]
  }

  /** The last request for a signature is the one that counts. */
  lemma {:induction false} LastRequestWins(sigs: seq<string>, ids: seq<int>, k: nat)
    requires |sigs| == |ids| && k < |sigs| && forall j :: k < j < |sigs| ==> sigs[j] != sigs[k]
    ensures sigs[k] in MethodTable(sigs, ids) && MethodTable(sigs, ids)[sigs[k]] == ids[k]
    decreases |sigs|
  {
    var n := |sigs| - 1;
    if k == n {
    } else {
      LastRequestWins(sigs[..n], ids[..n], k);
    }
  }

  predicate ValidType(code: int) { code == 0 || code == 1 }

  function KindOf(code: int): ProbeKind { if code == 0 then EnterLine else ExitLine }

  /** Requests at the same line are kept in the order they were made. */
  function LineTable(numbers: seq<int>, types: seq<int>, ids: seq<int>): (r: map<int, seq<LineInstrument>>)
    requires |numbers| == |types| == |ids|
    ensures r.Keys == set k | 0 <= k < |numbers| :: numbers[k]
  {
    if numbers == [] then map[]
    else
      var last := |numbers| - 1;
      var before := LineTable(numbers[..last], types[..last], ids[..last]);
      var n := numbers[last];
      before[n := (if n in before then before[n] else []) + [LineInstrument(KindOf(types[last]), ids[last])]]
  }

  /** A request stands behind exactly the earlier requests at its line, with its own kind and slot. */
  lemma {:induction false} LineTableInOrder(numbers: seq<int>, types: seq<int>, ids: seq<int>, k: nat)
    requires |numbers| == |types| == |ids| && k < |numbers|
    ensures var t, n, rank := LineTable(numbers, types, ids), numbers[k], multiset(numbers[..k])[numbers[k]];
            && n in t && rank < |t[n]| == multiset(numbers)[n]
            && t[n][rank] == LineInstrument(if types[k] == 0 then EnterLine else ExitLine, ids[k])
    decreases |numbers|
  {
    var last, n := |numbers| - 1, numbers[k];
    var earlier := numbers[..last];
    LineTableCounts(numbers, types, ids, n);
    assert numbers == earlier + [numbers[last]];
    if k < last {
      assert earlier[..k] == numbers[..k];
      LineTableInOrder(earlier, types[..last], ids[..last], k);
    } else {
      LineTableCounts(earlier, types[..last], ids[..last], n);
    }
  }

  lemma {:induction false} LineTableCounts(numbers: seq<int>, types: seq<int>, ids: seq<int>, n: int)
    requires |numbers| == |types| == |ids|
    ensures var t := LineTable(numbers, types, ids);
            |if n in t then t[n] else []| == multiset(numbers)[n]
    decreases |numbers|
  {
    if numbers == [] {
    } else {
      var last := |numbers| - 1;
      assert numbers == numbers[..last] + [numbers[last]];
      LineTableCounts(numbers[..last], types[..last], ids[..last], n);
    }
  }

  /** One request is one pair of a line and a position in that line's list;
      a pair is in `marked` once its `markFlag` is set. */
  function Requests(lines: map<int, seq<LineInstrument>>): set<(int, int)> {
    set n, k | n in lines && 0 <= k < |lines[n]| :: (n, k)
  }

  function AtLineRequests(lines: map<int, seq<LineInstrument>>, n: int, upto: int): set<(int, int)> {
    set k | 0 <= k < upto && n in lines :: (n, k)
  }

  /** The requests whose line has a marker in `code`. */
  function MarkedBy(lines: map<int, seq<LineInstrument>>, code: seq<Instr>): set<(int, int)> {
    set n, k | n in lines && 0 <= k < |lines[n]| && HasLine(code, n) :: (n, k)
  }

  lemma {:induction false} NoCallsYet(p: Plan, n: int)
    ensures [Line(n)] + LineCalls([]) == [Line(n)] && AtLineRequests(p.lines, n, 0) == {}
    ensures n !in p.lines ==> AtLineRequests(p.lines, n, |p.At(n)|) == {}
  {
  }

  lemma {:induction false} OneMoreCall(lines: map<int, seq<LineInstrument>>, before: seq<Instr>, n: int, k: nat)
    requires n in lines && k < |lines[n]|
    ensures before + LineCalls(lines[n][..k + 1]) ==
            before + LineCalls(lines[n][..k]) + Call(lines[n][k].kind, lines[n][k].profilerId)
    ensures AtLineRequests(lines, n, k + 1) == AtLineRequests(lines, n, k) + {(n, k)}
  {
    assert lines[n][..k + 1][..k] == lines[n][..k];
  }

  /** Shared by all the adapters of one class: how many requests have been matched. */
  class Matches {
    var matchedCount: nat
    var marked: set<(int, int)>
    ghost var methods: nat

    constructor ()
      ensures matchedCount == 0 && marked == {} && methods == 0
    {
      matchedCount, marked, methods := 0, {}, 0;
    }

    ghost predicate Valid()
      reads this
    {
      matchedCount == methods + |marked|
    }

    method CountMethod()
      requires Valid()
      modifies this
      ensures Valid() && methods == old(methods) + 1 && marked == old(marked)
    {
      matchedCount, methods := matchedCount + 1, methods + 1;
    }

    /** Counts the request the first time only. */
    method Mark(n: int, k: int)
      requires Valid()
      modifies this
      ensures Valid() && methods == old(methods) && marked == old(marked) + {(n, k)}
    {
      if (n, k) !in marked {
        marked, matchedCount := marked + {(n, k)}, matchedCount + 1;
      } else {
        assert marked + {(n, k)} == marked;
      }
    }
  }

  /** The adapter ASM drives over one method body. With a profiler slot it is
      the method-instrumenting adapter, without one the line-instrumenting one. */
  class Adapter {
    const plan: Plan
    const matches: Matches
    var code: seq<Instr>
    var table: seq<Handler>

    constructor (plan: Plan, matches: Matches)
      requires matches.Valid()
      modifies matches
      ensures this.plan == plan && this.matches == matches && code == [] && table == []
      ensures matches.Valid() && matches.marked == old(matches.marked)
      ensures matches.methods == old(matches.methods) + if plan.ident.Some? then 1 else 0
    {
      this.plan, this.matches, code, table := plan, matches, [], [];
      new;
      if plan.ident.Some? {
        matches.CountMethod();
      }
    }

    method Forward(i: Instr)
      modifies this`code
      ensures code == old(code) + [i]
    {
      code := code + [i];
    }

    /** Goes through the adapter's own `VisitInsn`, which must not intercept it. */
    method EmitPush(value: int)
      modifies this`code
      ensures code == old(code) + [PushInt(value)]
      decreases 1
    {
      if -1 <= value <= 5 {
        VisitInsn(ICONST_0 + value);
      } else if -0x80 <= value <= 0x7F {
        Forward(IntInsn(BIPUSH, value));
      } else if -0x8000 <= value <= 0x7FFF {
        Forward(IntInsn(SIPUSH, value));
      } else {
        Forward(Ldc(value));
      }
    }

    method EmitCall(kind: ProbeKind, id: int)
      modifies this`code
      ensures code == old(code) + Call(kind, id)
      decreases 2
    {
      EmitPush(id);
      Forward(Probe(kind));
    }

    method VisitInsn(opcode: int)
      modifies this`code
      ensures code == old(code) + Expand(plan, Insn(opcode))
      ensures opcode in {172, 173, 174, 175, 176, 177} && plan.ident.Some? ==>
                code == old(code) + Call(Exit, plan.ident.value) + [Insn(opcode)]
      ensures opcode !in {172, 173, 174, 175, 176, 177} ==> code == old(code) + [Insn(opcode)]
      decreases if IsReturn(opcode) then 3 else 0
    {
      if plan.ident.Some? && IsReturn(opcode) {
        EmitCall(Exit, plan.ident.value);
      }
      Forward(Insn(opcode));
    }

    method VisitLineNumber(n: int)
      requires matches.Valid()
      modifies this`code, matches
      ensures code == old(code) + Expand(plan, Line(n))
      ensures matches.Valid() && matches.methods == old(matches.methods)
      ensures matches.marked == old(matches.marked) + AtLineRequests(plan.lines, n, |plan.At(n)|)
    {
      hide LineCalls, AtLineRequests;
      Forward(Line(n));
      NoCallsYet(plan, n);
      if n in plan.lines {
        var instruments := plan.lines[n];
        for k := 0 to |instruments|
          invariant code == old(code) + ([Line(n)] + LineCalls(instruments[..k]))
          invariant matches.Valid() && matches.methods == old(matches.methods)
          invariant matches.marked == old(matches.marked) + AtLineRequests(plan.lines, n, k)
        {
          EmitCall(instruments[k].kind, instruments[k].profilerId);
          matches.Mark(n, k);
          OneMoreCall(plan.lines, [Line(n)], n, k);
        }
        assert instruments[..|instruments|] == instruments;
      }
    }

    method Visit(i: Instr)
      requires matches.Valid()
      modifies this`code, matches
      ensures code == old(code) + Expand(plan, i)
      ensures matches.Valid() && matches.methods == old(matches.methods)
      ensures matches.marked == old(matches.marked) + MarkedBy(plan.lines, [i])
    {
      match i
      case Line(n) =>
        VisitLineNumber(n);
        assert HasLine([i], n) && forall j :: HasLine([i], j) ==> j == n;
        assert MarkedBy(plan.lines, [i]) == AtLineRequests(plan.lines, n, |plan.At(n)|);
      case Insn(opcode) =>
        VisitInsn(opcode);
        assert MarkedBy(plan.lines, [i]) == {};
      case _ =>
        Forward(i);
        assert MarkedBy(plan.lines, [i]) == {};
    }

    method VisitCode()
      modifies this`code
      ensures code == old(code) + Prologue(plan)
    {
      if plan.ident.Some? {
        Forward(Label(StartFinally));
        EmitCall(Enter, plan.ident.value);
      }
    }

    method VisitMaxs()
      modifies this`code, this`table
      ensures code == old(code) + Epilogue(plan) && table == old(table) + CatchAll(plan)
    {
      if plan.ident.Some? {
        table := table + [Handler(StartFinally, EndFinally, EndFinally, None)];
        Forward(Label(EndFinally));
        EmitCall(Exit, plan.ident.value);
        Forward(Insn(ATHROW));
      }
    }
  }

  lemma {:induction false} MarkedBySnoc(lines: map<int, seq<LineInstrument>>, code: seq<Instr>, i: Instr)
    ensures MarkedBy(lines, code + [i]) == MarkedBy(lines, code) + MarkedBy(lines, [i])
  {
    assert forall n :: HasLine(code + [i], n) <==> HasLine(code, n) || HasLine([i], n);
  }

  /** Feeds one body to an adapter, in the order ASM's class reader does. */
  method Accept(b: Body, a: Adapter)
    requires a.matches.Valid() && a.code == [] && a.table == []
    modifies a, a.matches
    ensures a.code == Instrument(a.plan, b).code && a.table == Instrument(a.plan, b).table
    ensures a.matches.Valid() && a.matches.methods == old(a.matches.methods)
    ensures a.matches.marked == old(a.matches.marked) + MarkedBy(a.plan.lines, b.code)
  {
    hide Expand, ExpandAll, MarkedBy;
    a.table := b.table;
    a.VisitCode();
    NothingYet(a.plan, a.code);
    for k := 0 to |b.code|
      invariant a.table == b.table && a.matches.Valid() && a.matches.methods == old(a.matches.methods)
      invariant a.code == Prologue(a.plan) + ExpandAll(a.plan, b.code[..k])
      invariant a.matches.marked == old(a.matches.marked) + MarkedBy(a.plan.lines, b.code[..k])
    {
      a.Visit(b.code[k]);
      assert b.code[..k + 1] == b.code[..k] + [b.code[k]];
      MarkedBySnoc(a.plan.lines, b.code[..k], b.code[k]);
      ExpandAllSnoc(a.plan, Prologue(a.plan), b.code[..k], b.code[k]);
    }
    assert b.code[..|b.code|] == b.code;
    a.VisitMaxs();
  }

  lemma {:induction false} NothingYet(p: Plan, before: seq<Instr>)
    ensures before + ExpandAll(p, []) == before && MarkedBy(p.lines, []) == {}
  {
  }

  lemma {:induction false} ExpandAllSnoc(p: Plan, before: seq<Instr>, code: seq<Instr>, i: Instr)
    ensures before + ExpandAll(p, code + [i]) == before + ExpandAll(p, code) + Expand(p, i)
  {
    hide Expand;
    assert (code + [i])[..|code|] == code;
  }

  predicate DistinctSigs(ms: seq<Method>) {
    forall j, k :: 0 <= j < k < |ms| ==> ms[j].sig != ms[k].sig
  }

  lemma {:induction false} RequestsAreFinite(lines: map<int, seq<LineInstrument>>, done: set<int>, n: int)
    requires n in lines && n !in done
    ensures |Requests(map j | j in lines && j in done + {n} :: lines[j])| ==
            |Requests(map j | j in lines && j in done :: lines[j])| + |lines[n]|
  {
    var before := map j | j in lines && j in done :: lines[j];
    var after := map j | j in lines && j in done + {n} :: lines[j];
    var atN := AtLineRequests(lines, n, |lines[n]|);
    assert Requests(after) == Requests(before) + atN;
    CountAtLine(lines, n, |lines[n]|);
  }

  lemma {:induction false} CountAtLine(lines: map<int, seq<LineInstrument>>, n: int, upto: nat)
    requires n in lines
    ensures |AtLineRequests(lines, n, upto)| == upto
  {
    if upto == 0 {
      assert AtLineRequests(lines, n, 0) == {};
    } else {
      CountAtLine(lines, n, upto - 1);
      assert AtLineRequests(lines, n, upto) == AtLineRequests(lines, n, upto - 1) + {(n, upto - 1)};
    }
  }

  /** The sizes of all the lists together. */
  method CountLineInstruments(lines: map<int, seq<LineInstrument>>) returns (total: nat)
    ensures total == |Requests(lines)|
  {
    total := 0;
    var left := lines.Keys;
    while left != {}
      invariant left <= lines.Keys
      invariant total == |Requests(map j | j in lines && j in lines.Keys - left :: lines[j])|
      decreases left
    {
      var n := AnyOf(left);
      RequestsAreFinite(lines, lines.Keys - left, n);
      assert lines.Keys - (left - {n}) == lines.Keys - left + {n};
      total := total + |lines[n]|;
      left := left - {n};
    }
    assert (map j | j in lines && j in lines.Keys - left :: lines[j]) == lines;
  }

  /** The methods the pass answers with; `TransformedRuns` says what they do. */
  ghost predicate Answers(ms: seq<Method>, sigs: seq<string>, ids: seq<int>, numbers: seq<int>, types: seq<int>,
                          lineIds: seq<int>, out: seq<Method>)
    requires |sigs| == |ids| && |numbers| == |types| == |lineIds|
  {
    out == InstrumentAll(MethodTable(sigs, ids), LineTable(numbers, types, lineIds), ms)
  }

  /**
   The whole pass over one class. It refuses an unknown request type, it gives
   up exactly when some requested method or line does not exist in the class,
   and otherwise it instruments every method as `Instrument` says.
   */
  method Transform(ms: seq<Method>, sigs: seq<string>, ids: seq<int>,
                   numbers: seq<int>, types: seq<int>, lineIds: seq<int>)
    returns (r: Outcome)
    requires |sigs| == |ids| && |numbers| == |types| == |lineIds| && DistinctSigs(ms)
    ensures r == InvalidType <==> exists k :: 0 <= k < |types| && types[k] !in {0, 1}
    ensures r == NotAllMatched ==>
              (exists k :: 0 <= k < |sigs| && sigs[k] !in Sigs(ms)) ||
              (exists k :: 0 <= k < |numbers| && !ClassHasLine(ms, numbers[k]))
    ensures r.Transformed? ==>
              && Answers(ms, sigs, ids, numbers, types, lineIds, r.methods)
              && (forall k :: 0 <= k < |sigs| ==> sigs[k] in Sigs(ms))
              && (forall k :: 0 <= k < |numbers| ==> ClassHasLine(ms, numbers[k]))
  {
    var methodIds := BuildMethodTable(sigs, ids);
    var valid, lines := BuildLineTable(numbers, types, lineIds);
    if !valid {
      return InvalidType;
    }
    var out, matches := VisitClass(ms, methodIds, lines);
    var totalLines := CountLineInstruments(lines);
    var expected := |methodIds| + totalLines;
    MatchedExactly(ms, methodIds, lines, matches.methods, matches.marked);
    LineTableIsFull(numbers, types, lineIds);
    if matches.matchedCount < expected {
      return NotAllMatched;
    }
    return Transformed(out);
  }

  method BuildMethodTable(sigs: seq<string>, ids: seq<int>) returns (methodIds: map<string, int>)
    requires |sigs| == |ids|
    ensures methodIds == MethodTable(sigs, ids)
  {
    methodIds := map[];
    for k := 0 to |sigs|
      invariant methodIds == MethodTable(sigs[..k], ids[..k])
    {
      assert sigs[..k + 1][..k] == sigs[..k] && ids[..k + 1][..k] == ids[..k];
      methodIds := methodIds[sigs[k] := ids[k]];
    }
    assert sigs[..|sigs|] == sigs && ids[..|ids|] == ids;
  }

  lemma {:induction false} LineTablePrefix(numbers: seq<int>, types: seq<int>, ids: seq<int>, k: nat)
    requires |numbers| == |types| == |ids| && k < |numbers|
    ensures var t := LineTable(numbers[..k], types[..k], ids[..k]);
            LineTable(numbers[..k + 1], types[..k + 1], ids[..k + 1]) ==
            t[numbers[k] :=
              (if numbers[k] in t then t[numbers[k]] else []) + [LineInstrument(KindOf(types[k]), ids[k])]]
  {
    var n, t, i := numbers[..k + 1], types[..k + 1], ids[..k + 1];
    assert n[..k] == numbers[..k] && t[..k] == types[..k] && i[..k] == ids[..k];
    assert n[k] == numbers[k] && t[k] == types[k] && i[k] == ids[k];
  }

  method BuildLineTable(numbers: seq<int>, types: seq<int>, ids: seq<int>)
    returns (valid: bool, lines: map<int, seq<LineInstrument>>)
    requires |numbers| == |types| == |ids|
    ensures valid <==> forall k :: 0 <= k < |types| ==> ValidType(types[k])
    ensures valid ==> lines == LineTable(numbers, types, ids)
  {
    lines := map[];
    for k := 0 to |numbers|
      invariant forall j :: 0 <= j < k ==> ValidType(types[j])
      invariant lines == LineTable(numbers[..k], types[..k], ids[..k])
    {
      if !ValidType(types[k]) {
        return false, lines;
      }
      LineTablePrefix(numbers, types, ids, k);
      var before := if numbers[k] in lines then lines[numbers[k]] else [];
      lines := lines[numbers[k] := before + [LineInstrument(KindOf(types[k]), ids[k])]];
    }
    assert numbers[..|numbers|] == numbers && types[..|types|] == types && ids[..|ids|] == ids;
    valid := true;
  }

  ghost function MatchedMethods(ms: seq<Method>, methodIds: map<string, int>): set<string> {
    set k | 0 <= k < |ms| && ms[k].sig in methodIds :: ms[k].sig
  }

  ghost function MarkedInClass(ms: seq<Method>, lines: map<int, seq<LineInstrument>>): set<(int, int)> {
    set n, k | n in lines && 0 <= k < |lines[n]| && ClassHasLine(ms, n) :: (n, k)
  }

  method VisitClass(ms: seq<Method>, methodIds: map<string, int>, lines: map<int, seq<LineInstrument>>)
    returns (out: seq<Method>, matches: Matches)
    requires DistinctSigs(ms)
    ensures out == InstrumentAll(methodIds, lines, ms)
    ensures matches.Valid() && matches.methods == |MatchedMethods(ms, methodIds)|
    ensures matches.marked == MarkedInClass(ms, lines)
  {
    hide InstrumentAll, MatchedMethods, MarkedInClass, Instrument, MarkedBy;
    matches := new Matches();
    out := [];
    NothingVisited(methodIds, lines);
    assert ms[..0] == [];
    for k := 0 to |ms|
      invariant fresh(matches) && matches.Valid()
      invariant out == InstrumentAll(methodIds, lines, ms[..k])
      invariant matches.methods == |MatchedMethods(ms[..k], methodIds)|
      invariant matches.marked == MarkedInClass(ms[..k], lines)
    {
      var a := new Adapter(PlanFor(methodIds, lines, ms[k].sig), matches);
      Accept(ms[k].body, a);
      assert Body(a.code, a.table) == Instrument(a.plan, ms[k].body);
      out := out + [Method(ms[k].sig, Body(a.code, a.table))];
      OneMoreMethod(ms, methodIds, lines, k);
      InstrumentAllPrefix(ms, methodIds, lines, k);
    }
    assert ms[..|ms|] == ms;
  }

  lemma {:induction false} NothingVisited(methodIds: map<string, int>, lines: map<int, seq<LineInstrument>>)
    ensures InstrumentAll(methodIds, lines, []) == [] && MatchedMethods([], methodIds) == {}
    ensures MarkedInClass([], lines) == {}
  {
  }

  lemma {:induction false} InstrumentAllPrefix(ms: seq<Method>, methodIds: map<string, int>,
                                               lines: map<int, seq<LineInstrument>>, k: nat)
    requires k < |ms|
    ensures InstrumentAll(methodIds, lines, ms[..k + 1]) == InstrumentAll(methodIds, lines, ms[..k]) +
              [Method(ms[k].sig, Instrument(PlanFor(methodIds, lines, ms[k].sig), ms[k].body))]
  {
    hide Instrument, PlanFor;
  }

  lemma {:induction false} OneMoreMethod(ms: seq<Method>, methodIds: map<string, int>,
                                         lines: map<int, seq<LineInstrument>>, k: nat)
    requires k < |ms| && DistinctSigs(ms)
    ensures |MatchedMethods(ms[..k + 1], methodIds)| ==
            |MatchedMethods(ms[..k], methodIds)| + if ms[k].sig in methodIds then 1 else 0
    ensures MarkedInClass(ms[..k + 1], lines) ==
            MarkedInClass(ms[..k], lines) + MarkedBy(lines, ms[k].body.code)
  {
    var now, before := MatchedMethods(ms[..k + 1], methodIds), MatchedMethods(ms[..k], methodIds);
    assert ms[..k + 1] == ms[..k] + [ms[k]];
    forall s | s in now ensures s in before || s == ms[k].sig {
      var j :| 0 <= j < |ms[..k + 1]| && ms[..k + 1][j].sig in methodIds && s == ms[..k + 1][j].sig;
      if j < k { assert ms[..k][j].sig == s; }
    }
    forall s | s in before ensures s in now {
      var j :| 0 <= j < |ms[..k]| && ms[..k][j].sig in methodIds && s == ms[..k][j].sig;
      assert ms[..k + 1][j].sig == s;
    }
    assert ms[..k + 1][k].sig == ms[k].sig;
    assert now == if ms[k].sig in methodIds then before + {ms[k].sig} else before;
    forall n ensures ClassHasLine(ms[..k + 1], n) <==> ClassHasLine(ms[..k], n) || HasLine(ms[k].body.code, n) {
      ClassHasLineSnoc(ms[..k], ms[k], n);
    }
  }

  lemma {:induction false} ClassHasLineSnoc(ms: seq<Method>, m: Method, n: int)
    ensures ClassHasLine(ms + [m], n) <==> ClassHasLine(ms, n) || HasLine(m.body.code, n)
  {
    var all := ms + [m];
    assert all[|ms|] == m;
    assert forall j :: 0 <= j < |ms| ==> all[j] == ms[j];
  }

  /** The count reaches the expected total only when nothing was missed. */
  lemma {:induction false} MatchedExactly(ms: seq<Method>, methodIds: map<string, int>,
                                          lines: map<int, seq<LineInstrument>>,
                       methods: nat, marked: set<(int, int)>)
    requires methods == |MatchedMethods(ms, methodIds)| && marked == MarkedInClass(ms, lines)
    ensures methods + |marked| <= |methodIds| + |Requests(lines)|
    ensures methods + |marked| == |methodIds| + |Requests(lines)| <==>
            methodIds.Keys <= Sigs(ms) && forall n :: n in lines && lines[n] != [] ==> ClassHasLine(ms, n)
  {
    var found := MatchedMethods(ms, methodIds);
    assert found <= methodIds.Keys && marked <= Requests(lines);
    SubsetSize(found, methodIds.Keys);
    SubsetSize(marked, Requests(lines));
    assert methodIds.Keys <= Sigs(ms) <==> found == methodIds.Keys;
    if marked == Requests(lines) {
      forall n | n in lines && lines[n] != [] ensures ClassHasLine(ms, n) {
        assert (n, 0) in Requests(lines);
      }
    }
  }

  lemma {:induction false} SubsetSize<T>(small: set<T>, large: set<T>)
    requires small <= large
    ensures |small| <= |large| && (|small| == |large| <==> small == large)
  {
    assert large == small + (large - small);
  }

  lemma {:induction false} LineTableIsFull(numbers: seq<int>, types: seq<int>, ids: seq<int>)
    requires |numbers| == |types| == |ids|
    ensures forall n :: n in LineTable(numbers, types, ids) ==> LineTable(numbers, types, ids)[n] != []
    decreases |numbers|
  {
    if numbers == [] {
    } else {
      var last := |numbers| - 1;
      LineTableIsFull(numbers[..last], types[..last], ids[..last]);
    }
  }
}
