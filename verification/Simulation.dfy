/**
 The instrumentation pass preserves meaning: an instrumented run goes through
 the configurations of the original run, with probe calls added and nothing else.
 */
module Simulation {
  import opened Prelude
  import opened MethodBody
  import opened Instrumenter

  // ----- where things are in the instrumented code -----

  /** Where instruction `i` of the original starts in the instrumented code. */
  function Pos(p: Plan, code: seq<Instr>, i: nat): nat
    requires i <= |code|
  {
    |Prologue(p)| + |ExpandAll(p, code[..i])|
  }

  lemma {:induction false} ExpandAllSplit(p: Plan, code: seq<Instr>, i: nat)
    requires i <= |code|
    ensures ExpandAll(p, code[..i]) <= ExpandAll(p, code)
    decreases |code|
  {
    if i < |code| {
      var shorter := code[..|code| - 1];
      ExpandAllSplit(p, shorter, i);
      assert shorter[..i] == code[..i];
    } else {
      assert code[..i] == code;
    }
  }

  /** `block` appears in `code` at position `at`. */
  predicate HoldsAt(code: seq<Instr>, at: nat, block: seq<Instr>) {
    at + |block| <= |code| && code[at..at + |block|] == block
  }

  lemma {:induction false} HoldsAtPoint(code: seq<Instr>, at: nat, block: seq<Instr>, j: nat)
    requires HoldsAt(code, at, block) && j < |block|
    ensures code[at + j] == block[j]
  {
    assert code[at + j] == code[at..at + |block|][j];
  }

  lemma {:induction false} HoldsAtSplit(code: seq<Instr>, at: nat, x: seq<Instr>, y: seq<Instr>)
    requires HoldsAt(code, at, x + y)
    ensures HoldsAt(code, at, x) && HoldsAt(code, at + |x|, y)
  {
    var block := code[at..at + |x + y|];
    assert code[at..at + |x|] == block[..|x|] == x;
    assert code[at + |x|..at + |x| + |y|] == block[|x|..] == y;
  }

  lemma {:induction false} PrefixGrows(p: Plan, code: seq<Instr>, i: nat)
    requires i < |code|
    ensures ExpandAll(p, code[..i + 1]) == ExpandAll(p, code[..i]) + Expand(p, code[i])
    ensures |Expand(p, code[i])| > 0
  {
    var upto := code[..i + 1];
    assert upto != [] && upto[..|upto| - 1] == code[..i] && upto[|upto| - 1] == code[i];
  }

  /** Instruction `i` turns into the block that starts at `Pos(i)` and ends at `Pos(i + 1)`. */
  lemma {:induction false} Block(p: Plan, b: Body, i: nat)
    requires i < |b.code|
    ensures Pos(p, b.code, i + 1) == Pos(p, b.code, i) + |Expand(p, b.code[i])|
    ensures HoldsAt(Instrument(p, b).code, Pos(p, b.code, i), Expand(p, b.code[i]))
    ensures Pos(p, b.code, i) < |Instrument(p, b).code|
  {
    hide ExpandAll, Expand, Prologue, Epilogue;
    PrefixGrows(p, b.code, i);
    ExpandAllSplit(p, b.code, i + 1);
    SliceOfPrefix(Prologue(p), ExpandAll(p, b.code), Epilogue(p), ExpandAll(p, b.code[..i]), Expand(p, b.code[i]));
  }

  lemma {:induction false} SliceOfPrefix(a: seq<Instr>, b: seq<Instr>, c: seq<Instr>, before: seq<Instr>,
                                         block: seq<Instr>)
    requires before + block <= b
    ensures HoldsAt(a + b + c, |a| + |before|, block)
  {
    var n := |before| + |block|;
    assert (a + b + c)[|a|..][..|b|] == b;
    assert (a + b + c)[|a| + |before|..|a| + n] == b[..n][|before|..];
  }

  lemma {:induction false} PosMonotone(p: Plan, code: seq<Instr>, i: nat, j: nat)
    requires i < j <= |code|
    ensures Pos(p, code, i) < Pos(p, code, j)
  {
    assert code[..i + 1][..i] == code[..i];
    assert code[..j][..i + 1] == code[..i + 1];
    ExpandAllSplit(p, code[..j], i + 1);
  }

  lemma {:induction false} IndexOfIs(code: seq<Instr>, l: LabelId, k: nat)
    requires k < |code| && code[k] == Label(l) && Label(l) !in code[..k]
    ensures IndexOf(code, l) == k
  {
  }

  lemma {:induction false} LineCallsHaveNoLabels(ls: seq<LineInstrument>, l: LabelId)
    ensures Label(l) !in LineCalls(ls)
  {
    if ls == [] {
    } else {
      LineCallsHaveNoLabels(ls[..|ls| - 1], l);
    }
  }

  lemma {:induction false} ExpandKeepsLabels(p: Plan, code: seq<Instr>, l: LabelId)
    ensures Label(l) in ExpandAll(p, code) <==> Label(l) in code
  {
    if code == [] {
    } else {
      var last := code[|code| - 1];
      ExpandKeepsLabels(p, code[..|code| - 1], l);
      if last.Line? {
        LineCallsHaveNoLabels(p.At(last.number), l);
      }
      assert code == code[..|code| - 1] + [last];
    }
  }

  /** Every label of the original marks the corresponding place in the instrumented code. */
  lemma {:induction false} LabelMoves(p: Plan, b: Body, n: nat)
    requires Original(b) && Defines(b.code, User(n))
    ensures IndexOf(b.code, User(n)) < |b.code|
    ensures IndexOf(Instrument(p, b).code, User(n)) == Pos(p, b.code, IndexOf(b.code, User(n)))
  {
    hide Instrument, ExpandAll;
    var l := User(n);
    var k := IndexOf(b.code, l);
    var code' := Instrument(p, b).code;
    var at := Pos(p, b.code, k);
    Block(p, b, k);
    HoldsAtPoint(code', at, Expand(p, b.code[k]), 0);
    Before(p, b, k);
    ExpandKeepsLabels(p, b.code[..k], l);
    IndexOfIs(code', l, at);
  }

  lemma {:induction false} Before(p: Plan, b: Body, k: nat)
    requires k <= |b.code|
    ensures Pos(p, b.code, k) <= |Instrument(p, b).code|
    ensures Instrument(p, b).code[..Pos(p, b.code, k)] == Prologue(p) + ExpandAll(p, b.code[..k])
  {
    ExpandAllSplit(p, b.code, k);
    PrefixOfPrefix(Prologue(p), ExpandAll(p, b.code), Epilogue(p), ExpandAll(p, b.code[..k]));
  }

  lemma {:induction false} PrefixOfPrefix(a: seq<Instr>, b: seq<Instr>, c: seq<Instr>, upto: seq<Instr>)
    requires upto <= b
    ensures (a + b + c)[..|a| + |upto|] == a + upto
  {
    assert b == upto + b[|upto|..];
  }

  /** The protected range runs from the very start to just after the original code. */
  lemma {:induction false} FinallyRange(p: Plan, b: Body)
    requires Original(b) && p.ident.Some?
    ensures IndexOf(Instrument(p, b).code, StartFinally) == 0
    ensures IndexOf(Instrument(p, b).code, EndFinally) == Pos(p, b.code, |b.code|)
  {
    var code' := Instrument(p, b).code;
    var at := Pos(p, b.code, |b.code|);
    EndPlaced(p, b);
    ExpandKeepsLabels(p, b.code, EndFinally);
    hide ExpandAll, Pos;
    assert Label(EndFinally) !in b.code;
    hide Instrument;
    IndexOfIs(code', EndFinally, at);
    IndexOfIs(code', StartFinally, 0);
  }

  /** Up to the end of the original code there is the prologue and that code, expanded; then
      the label of the handler. */
  lemma {:induction false} EndPlaced(p: Plan, b: Body)
    requires p.ident.Some?
    ensures var code', at := Instrument(p, b).code, Pos(p, b.code, |b.code|);
            && at < |code'| && code'[at] == Label(EndFinally) && code'[..at] == Prologue(p) + ExpandAll(p, b.code)
            && code'[0] == Label(StartFinally)
  {
    Before(p, b, |b.code|);
    assert b.code[..|b.code|] == b.code;
    hide ExpandAll;
    var before := Prologue(p) + ExpandAll(p, b.code);
    assert Instrument(p, b).code == before + Epilogue(p);
    assert (before + Epilogue(p))[|before|] == Epilogue(p)[0];
    assert before[0] == Prologue(p)[0];
  }

  // ----- exception dispatch -----

  lemma {:induction false} CoverMoves<M>(p: Plan, b: Body, m: Machine<M>, h: Handler, pc: nat, exc: nat)
    requires Original(b) && h in b.table && pc < |b.code|
    ensures Catches(Instrument(p, b), m, h, Pos(p, b.code, pc), exc) == Catches(b, m, h, pc, exc)
    ensures p.ident.Some? ==>
              forall at :: Pos(p, b.code, |b.code|) <= at ==> !Catches(Instrument(p, b), m, h, at, exc)
  {
    hide Instrument, ExpandAll, Pos;
    var s, e := IndexOf(b.code, h.start), IndexOf(b.code, h.end);
    DefinedIsUser(b, h.start);
    DefinedIsUser(b, h.end);
    LabelMoves(p, b, h.start.n);
    LabelMoves(p, b, h.end.n);
    if pc < s { PosMonotone(p, b.code, pc, s); }
    if s < pc { PosMonotone(p, b.code, s, pc); }
    if pc < e { PosMonotone(p, b.code, pc, e); }
    if e < pc { PosMonotone(p, b.code, e, pc); }
    PosMonotone(p, b.code, e, |b.code|);
  }

  lemma {:induction false} DefinedIsUser(b: Body, l: LabelId)
    requires Original(b) && Defines(b.code, l)
    ensures l.User?
  {
    var k :| 0 <= k < |b.code| && b.code[k] == Label(l);
  }

  /** Original handlers keep their order; the catch-all is consulted only when none applies. */
  lemma {:induction false} DispatchMoves<M>(p: Plan, b: Body, m: Machine<M>, t: seq<Handler>, pc: nat, exc: nat)
    requires Original(b) && pc < |b.code| && forall h :: h in t ==> h in b.table
    ensures FindHandler(Instrument(p, b), t + CatchAll(p), m, Pos(p, b.code, pc), exc) ==
            (var r := FindHandler(b, t, m, pc, exc);
             if r.None? && p.ident.Some? then Some(EndFinally) else r)
    decreases |t|
  {
    hide Instrument, ExpandAll, Pos;
    if t == [] {
      assert t + CatchAll(p) == CatchAll(p);
      if p.ident.Some? {
        FinallyRange(p, b);
        PosMonotone(p, b.code, pc, |b.code|);
        assert Catches(Instrument(p, b), m, CatchAll(p)[0], Pos(p, b.code, pc), exc);
      }
    } else {
      CoverMoves(p, b, m, t[0], pc, exc);
      assert (t + CatchAll(p))[1..] == t[1..] + CatchAll(p);
      DispatchMoves(p, b, m, t[1..], pc, exc);
    }
  }

  lemma {:induction false} CatchAllEnds<M>(p: Plan, b: Body, m: Machine<M>, at: nat, exc: nat)
    requires Original(b) && p.ident.Some? && Pos(p, b.code, |b.code|) <= at
    ensures |CatchAll(p)| == 1 && !Catches(Instrument(p, b), m, CatchAll(p)[0], at, exc)
  {
    hide Instrument, Pos, ExpandAll;
    FinallyRange(p, b);
  }

  /** Nothing protects the epilogue, so the rethrow leaves the method. */
  lemma {:induction false} EpilogueUnprotected<M>(p: Plan, b: Body, m: Machine<M>, t: seq<Handler>, at: nat, exc: nat)
    requires Original(b) && p.ident.Some? && Pos(p, b.code, |b.code|) <= at
    requires b.code != [] && forall h :: h in t ==> h in b.table
    ensures FindHandler(Instrument(p, b), t + CatchAll(p), m, at, exc) == None
    decreases |t|
  {
    hide Instrument, Pos, Catches, ExpandAll;
    if t == [] {
      assert t + CatchAll(p) == CatchAll(p);
      CatchAllEnds(p, b, m, at, exc);
    } else {
      CoverMoves(p, b, m, t[0], 0, exc);
      assert (t + CatchAll(p))[1..] == t[1..] + CatchAll(p);
      EpilogueUnprotected(p, b, m, t[1..], at, exc);
    }
  }

  // ----- what the emitted calls do -----

  predicate Int32(v: int) { -0x8000_0000 <= v < 0x8000_0000 }

  predicate AllFit(ls: seq<LineInstrument>) { forall k :: 0 <= k < |ls| ==> Int32(ls[k].profilerId) }

  /** Profiler slots are Java ints. */
  predicate SlotsFit(p: Plan) {
    (p.ident.Some? ==> Int32(p.ident.value)) && forall n :: n in p.lines ==> AllFit(p.lines[n])
  }

  /** Whatever encoding is chosen, the constant arrives on the stack unchanged,
      and it is never one of the opcodes the adapter intercepts. */
  lemma {:induction false} PushIntPushes<M>(b: Body, m: Machine<M>, c: Config<M>, v: int)
    requires c.Running? && c.pc < |b.code| && b.code[c.pc] == PushInt(v)
    requires Int32(v)
    ensures Step(b, m, c) == c.(pc := c.pc + 1, stack := c.stack + [IntVal(v)])
    ensures PushInt(v).Insn? ==> !IsReturn(PushInt(v).opcode)
  {
    assert c.trace + [] == c.trace;
    if -0x80 <= v < 0 { assert v % 0x100 == v + 0x100; }
    if -0x8000 <= v < 0 { assert v % 0x1_0000 == v + 0x1_0000; }
  }

  lemma {:induction false} CallRuns<M>(b: Body, m: Machine<M>, c: Config<M>, kind: ProbeKind, id: int)
    requires c.Running? && HoldsAt(b.code, c.pc, Call(kind, id)) && Int32(id)
    ensures Run(b, m, c, 2) == c.(pc := c.pc + 2, trace := c.trace + [Called(kind, id)])
  {
    HoldsAtPoint(b.code, c.pc, Call(kind, id), 0);
    HoldsAtPoint(b.code, c.pc, Call(kind, id), 1);
    PushIntPushes(b, m, c, id);
    var c1 := Step(b, m, c);
    assert c1.stack[..|c1.stack| - 1] == c.stack;
    RunPlus(b, m, c, 1, 1);
    RunOne(b, m, c);
    RunOne(b, m, c1);
  }

  function LineEvents(ls: seq<LineInstrument>): seq<Event> {
    seq(|ls|, k requires 0 <= k < |ls| => Called(ls[k].kind, ls[k].profilerId))
  }

  lemma {:induction false} LineCallsRun<M>(b: Body, m: Machine<M>, c: Config<M>, ls: seq<LineInstrument>)
    requires c.Running? && HoldsAt(b.code, c.pc, LineCalls(ls)) && AllFit(ls)
    ensures Run(b, m, c, 2 * |ls|) == c.(pc := c.pc + 2 * |ls|, trace := c.trace + LineEvents(ls))
    decreases |ls|
  {
    hide Step;
    if ls == [] {
      assert c.trace + LineEvents(ls) == c.trace;
    } else {
      var n := |ls| - 1;
      var last := Called(ls[n].kind, ls[n].profilerId);
      HoldsAtSplit(b.code, c.pc, LineCalls(ls[..n]), Call(last.kind, last.id));
      LineCallsRun(b, m, c, ls[..n]);
      CallRuns(b, m, Run(b, m, c, 2 * n), last.kind, last.id);
      RunPlus(b, m, c, 2 * n, 2);
      assert LineEvents(ls) == LineEvents(ls[..n]) + [last];
      assert c.trace + LineEvents(ls) == c.trace + LineEvents(ls[..n]) + [last];
    }
  }

  // ----- the simulation -----

  /** The trace an instrumented run adds to an original one: after each line
      marker, the probes requested there. */
  function WithProbes(p: Plan, trace: seq<Event>): seq<Event> {
    if trace == [] then []
    else WithProbes(p, trace[..|trace| - 1]) + EventWithProbes(p, trace[|trace| - 1])
  }

  function EventWithProbes(p: Plan, e: Event): seq<Event> {
    if e.AtLine? then [e] + LineEvents(p.At(e.number)) else [e]
  }

  function EnterEvents(p: Plan): seq<Event> { if p.ident.Some? then [Called(Enter, p.ident.value)] else [] }

  function ExitEvents(p: Plan): seq<Event> { if p.ident.Some? then [Called(Exit, p.ident.value)] else [] }

  /** An original configuration and its instrumented counterpart: same operand
      stack, same memory, same outcome, and exactly the expected probe calls. */
  predicate Match<M(==)>(p: Plan, b: Body, o: Config<M>, i: Config<M>) {
    match o
    case Running(pc, stack, mem, trace) =>
      pc <= |b.code| && i == Running(Pos(p, b.code, pc), stack, mem, EnterEvents(p) + WithProbes(p, trace))
    case Returned(opcode, stack, mem, trace) =>
      i == Returned(opcode, stack, mem, EnterEvents(p) + WithProbes(p, trace) + ExitEvents(p))
    case Escaped(exc, mem, trace) =>
      i == Escaped(exc, mem, EnterEvents(p) + WithProbes(p, trace) + ExitEvents(p))
    case Stuck => false
  }

  lemma {:induction false} WithProbesSnoc(p: Plan, before: seq<Event>, trace: seq<Event>, e: Event)
    ensures before + WithProbes(p, trace + [e]) == before + WithProbes(p, trace) + EventWithProbes(p, e)
  {
    assert (trace + [e])[..|trace|] == trace;
  }

  /** Entering: `enter` runs once, before the first original instruction. */
  lemma {:induction false} PrologueRuns<M>(p: Plan, b: Body, m: Machine<M>, mem: M)
    requires SlotsFit(p)
    ensures Match(p, b, Start(mem), Run(Instrument(p, b), m, Start(mem), |Prologue(p)|))
  {
    var b' := Instrument(p, b);
    assert b.code[..0] == [];
    if p.ident.Some? {
      var c1 := Step(b', m, Start(mem));
      assert HoldsAt(b'.code, 0, [Label(StartFinally)] + Call(Enter, p.ident.value));
      HoldsAtSplit(b'.code, 0, [Label(StartFinally)], Call(Enter, p.ident.value));
      HoldsAtPoint(b'.code, 0, [Label(StartFinally)], 0);
      CallRuns(b', m, c1, Enter, p.ident.value);
      RunOne(b', m, Start(mem));
      RunPlus(b', m, Start(mem), 1, 2);
    }
  }

  /** A handler that calls `exit` and rethrows, with nothing protecting the rethrow. */
  lemma {:induction false} RethrowRuns<M>(b: Body, m: Machine<M>, at: nat, id: int, exc: nat, mem: M, trace: seq<Event>)
    requires HoldsAt(b.code, at, [Label(EndFinally)] + Call(Exit, id) + [Insn(ATHROW)]) && Int32(id)
    requires FindHandler(b, b.table, m, at + 3, exc) == None
    ensures Run(b, m, Running(at, [Ref(exc)], mem, trace), 4) == Escaped(exc, mem, trace + [Called(Exit, id)])
  {
    HoldsAtSplit(b.code, at, [Label(EndFinally)] + Call(Exit, id), [Insn(ATHROW)]);
    HoldsAtSplit(b.code, at, [Label(EndFinally)], Call(Exit, id));
    HoldsAtPoint(b.code, at, [Label(EndFinally)], 0);
    HoldsAtPoint(b.code, at + 3, [Insn(ATHROW)], 0);
    var c := Running(at, [Ref(exc)], mem, trace);
    var c1 := Step(b, m, c);
    assert trace + [] == trace;
    CallRuns(b, m, c1, Exit, id);
    var c3 := Run(b, m, c1, 2);
    RunOne(b, m, c);
    RunOne(b, m, c3);
    RunPlus(b, m, c, 1, 2);
    RunPlus(b, m, c, 3, 1);
  }

  lemma {:induction false} EpilogueAt(p: Plan, b: Body)
    ensures HoldsAt(Instrument(p, b).code, Pos(p, b.code, |b.code|), Epilogue(p))
  {
    assert b.code[..|b.code|] == b.code;
  }

  /** Leaving by exception: the catch-all calls `exit` and rethrows the same exception. */
  lemma {:induction false} EpilogueRuns<M>(p: Plan, b: Body, m: Machine<M>, exc: nat, mem: M, trace: seq<Event>)
    requires Original(b) && b.code != [] && p.ident.Some? && SlotsFit(p)
    ensures var b' := Instrument(p, b);
            Run(b', m, Running(IndexOf(b'.code, EndFinally), [Ref(exc)], mem, trace), 4) ==
            Escaped(exc, mem, trace + ExitEvents(p))
  {
    FinallyRange(p, b);
    EpilogueAt(p, b);
    var at := Pos(p, b.code, |b.code|);
    EpilogueUnprotected(p, b, m, b.table, at + 3, exc);
    RethrowRuns(Instrument(p, b), m, at, p.ident.value, exc, mem, trace);
  }

  /** Raising an exception at corresponding places leads to corresponding places. */
  lemma {:induction false} RaiseMatches<M>(p: Plan, b: Body, m: Machine<M>, pc: nat, exc: nat, mem: M,
                                           trace: seq<Event>)
    requires Original(b) && pc < |b.code| && SlotsFit(p)
    ensures var b', before := Instrument(p, b), EnterEvents(p) + WithProbes(p, trace);
            var o, i := Raise(b, m, pc, exc, mem, trace), Raise(b', m, Pos(p, b.code, pc), exc, mem, before);
            Match(p, b, o, if o.Escaped? && p.ident.Some? then Run(b', m, i, 4) else i)
  {
    var b', before := Instrument(p, b), EnterEvents(p) + WithProbes(p, trace);
    DispatchMoves(p, b, m, b.table, pc, exc);
    var found := FindHandler(b, b.table, m, pc, exc);
    if found.None? {
      if p.ident.Some? {
        EpilogueRuns(p, b, m, exc, mem, before);
      } else {
        assert before + ExitEvents(p) == before;
      }
    } else {
      FoundIsDefined(b, b.table, m, pc, exc);
      DefinedIsUser(b, found.value);
      LabelMoves(p, b, found.value.n);
    }
  }

  lemma {:induction false} FoundIsDefined<M>(b: Body, t: seq<Handler>, m: Machine<M>, pc: nat, exc: nat)
    requires Original(b) && forall h :: h in t ==> h in b.table
    requires FindHandler(b, t, m, pc, exc).Some?
    ensures Defines(b.code, FindHandler(b, t, m, pc, exc).value)
    decreases |t|
  {
    if Catches(b, m, t[0], pc, exc) {
      assert t[0] in b.table;
    } else {
      FoundIsDefined(b, t[1..], m, pc, exc);
    }
  }

  /** A line marker followed by the calls requested there. */
  lemma {:induction false} LineRuns<M>(b: Body, m: Machine<M>, c: Config<M>, n: int, ls: seq<LineInstrument>)
    requires c.Running? && HoldsAt(b.code, c.pc, [Line(n)] + LineCalls(ls)) && AllFit(ls)
    ensures Run(b, m, c, 1 + 2 * |ls|) ==
            c.(pc := c.pc + 1 + 2 * |ls|, trace := c.trace + ([AtLine(n)] + LineEvents(ls)))
  {
    HoldsAtSplit(b.code, c.pc, [Line(n)], LineCalls(ls));
    HoldsAtPoint(b.code, c.pc, [Line(n)], 0);
    var c1 := Step(b, m, c);
    LineCallsRun(b, m, c1, ls);
    RunOne(b, m, c);
    RunPlus(b, m, c, 1, 2 * |ls|);
    assert c.trace + [AtLine(n)] + LineEvents(ls) == c.trace + ([AtLine(n)] + LineEvents(ls));
  }

  lemma {:induction false} LineMatches<M>(p: Plan, b: Body, m: Machine<M>, o: Config<M>, i: Config<M>) returns (k: nat)
    requires SlotsFit(p) && o.Running? && o.pc < |b.code| && Match(p, b, o, i) && b.code[o.pc].Line?
    ensures k > 0 && Match(p, b, Step(b, m, o), Run(Instrument(p, b), m, i, k))
  {
    hide Instrument, ExpandAll, Run, WithProbes;
    var n := b.code[o.pc].number;
    Block(p, b, o.pc);
    LineRuns(Instrument(p, b), m, i, n, p.At(n));
    WithProbesSnoc(p, EnterEvents(p), o.trace, AtLine(n));
    assert Step(b, m, o) == Running(o.pc + 1, o.stack, o.mem, o.trace + [AtLine(n)]);
    k := 1 + 2 * |p.At(n)|;
  }

  lemma {:induction false} ExitThenReturn<M>(b: Body, m: Machine<M>, c: Config<M>, id: int, opcode: int)
    requires c.Running? && IsReturn(opcode) && Int32(id)
    requires HoldsAt(b.code, c.pc, Call(Exit, id) + [Insn(opcode)])
    ensures Run(b, m, c, 3) == Returned(opcode, c.stack, c.mem, c.trace + [Called(Exit, id)])
  {
    HoldsAtSplit(b.code, c.pc, Call(Exit, id), [Insn(opcode)]);
    HoldsAtPoint(b.code, c.pc + 2, [Insn(opcode)], 0);
    CallRuns(b, m, c, Exit, id);
    RunOne(b, m, Run(b, m, c, 2));
    RunPlus(b, m, c, 2, 1);
  }

  /** A return: `exit` runs first and leaves the value being returned untouched. */
  lemma {:induction false} ReturnMatches<M>(p: Plan, b: Body, m: Machine<M>, o: Config<M>, i: Config<M>)
    returns (k: nat)
    requires SlotsFit(p) && o.Running? && o.pc < |b.code| && Match(p, b, o, i)
    requires b.code[o.pc].Insn? && IsReturn(b.code[o.pc].opcode)
    ensures k > 0 && Match(p, b, Step(b, m, o), Run(Instrument(p, b), m, i, k))
  {
    Block(p, b, o.pc);
    var b' := Instrument(p, b);
    if p.ident.Some? {
      ExitThenReturn(b', m, i, p.ident.value, b.code[o.pc].opcode);
      k := 3;
    } else {
      HoldsAtPoint(b'.code, i.pc, Expand(p, b.code[o.pc]), 0);
      assert i.trace + ExitEvents(p) == i.trace;
      RunOne(b', m, i);
      k := 1;
    }
  }

  /** Any other instruction is copied, so it does the same thing at its new place. */
  lemma {:induction false} PlainMatches<M>(p: Plan, b: Body, m: Machine<M>, o: Config<M>, i: Config<M>) returns (k: nat)
    requires Original(b) && SlotsFit(p) && o.Running? && o.pc < |b.code| && Match(p, b, o, i)
    requires !b.code[o.pc].Line? && !(b.code[o.pc].Insn? && IsReturn(b.code[o.pc].opcode))
    requires !Step(b, m, o).Stuck?
    ensures k > 0 && Match(p, b, Step(b, m, o), Run(Instrument(p, b), m, i, k))
  {
    hide Instrument, ExpandAll, Run, WithProbes;
    var b', instr := Instrument(p, b), b.code[o.pc];
    Block(p, b, o.pc);
    HoldsAtPoint(b'.code, i.pc, Expand(p, instr), 0);
    ActsPlainly(m, instr, o.stack, o.mem);
    hide Expand;
    match Act(m, instr, o.stack, o.mem)
    case Forward(_, _, _) =>
      k := 1;
      RunOne(b', m, i);
      assert o.trace + [] == o.trace && i.trace + [] == i.trace;
    case JumpTo(l, stack, mem) =>
      k := 1;
      RunOne(b', m, i);
      DefinedIsUser(b, l);
      LabelMoves(p, b, l.n);
    case RaiseIt(_, _) =>
      k := RaisePlainly(p, b, m, o, i);
  }

  lemma {:induction false} RaisePlainly<M>(p: Plan, b: Body, m: Machine<M>, o: Config<M>, i: Config<M>) returns (k: nat)
    requires Original(b) && SlotsFit(p) && o.Running? && o.pc < |b.code| && Match(p, b, o, i)
    requires i.pc < |Instrument(p, b).code| && Instrument(p, b).code[i.pc] == b.code[o.pc]
    requires Act(m, b.code[o.pc], o.stack, o.mem).RaiseIt?
    ensures k > 0 && Match(p, b, Step(b, m, o), Run(Instrument(p, b), m, i, k))
  {
    hide Instrument, ExpandAll, Run, WithProbes;
    var b' := Instrument(p, b);
    var a := Act(m, b.code[o.pc], o.stack, o.mem);
    RunOne(b', m, i);
    RaiseMatches(p, b, m, o.pc, a.exc, a.mem, o.trace);
    RunPlus(b', m, i, 1, 4);
    k := if Step(b, m, o).Escaped? && p.ident.Some? then 5 else 1;
  }

  lemma {:induction false} ActsPlainly<M>(m: Machine<M>, i: Instr, stack: seq<Value>, mem: M)
    requires !i.Line? && !i.Probe? && !(i.Insn? && IsReturn(i.opcode))
    ensures var a := Act(m, i, stack, mem);
            && !a.ReturnIt?
            && (a.Forward? ==> a.events == [])
            && (a.JumpTo? ==> i.Op? && exists j :: 0 <= j < |i.targets| && i.targets[j] == a.label_)
  {
  }

  /** One original step is matched by one or more instrumented steps. */
  lemma {:induction false} StepMatches<M>(p: Plan, b: Body, m: Machine<M>, o: Config<M>, i: Config<M>) returns (k: nat)
    requires Original(b) && SlotsFit(p) && o.Running? && o.pc < |b.code| && Match(p, b, o, i)
    requires !Step(b, m, o).Stuck?
    ensures k > 0 && Match(p, b, Step(b, m, o), Run(Instrument(p, b), m, i, k))
  {
    var instr := b.code[o.pc];
    if instr.Line? {
      k := LineMatches(p, b, m, o, i);
    } else if instr.Insn? && IsReturn(instr.opcode) {
      k := ReturnMatches(p, b, m, o, i);
    } else {
      k := PlainMatches(p, b, m, o, i);
    }
  }

  /**
   Forward simulation over runs of any length: as long as the original run has
   not fallen off its code, some instrumented run of at least as many steps
   matches it.
   */
  lemma {:induction false} RunMatches<M>(p: Plan, b: Body, m: Machine<M>, mem: M, n: nat) returns (k: nat)
    requires Original(b) && SlotsFit(p)
    requires forall j: nat :: j <= n ==> !Run(b, m, Start(mem), j).Stuck?
    ensures n <= k
    ensures Match(p, b, Run(b, m, Start(mem), n), Run(Instrument(p, b), m, Start(mem), k))
  {
    hide Instrument, ExpandAll, Pos, Act, Follow, WithProbes;
    var b', s := Instrument(p, b), Start(mem);
    if n == 0 {
      PrologueRuns(p, b, m, mem);
      k := |Prologue(p)|;
    } else {
      var before := RunMatches(p, b, m, mem, n - 1);
      var o, i := Run(b, m, s, n - 1), Run(b', m, s, before);
      RunPlus(b, m, s, n - 1, 1);
      RunOne(b, m, o);
      assert Run(b, m, s, n) == Step(b, m, o);
      var extra: nat := 1;
      if o.Running? {
        extra := StepMatches(p, b, m, o, i);
      } else {
        DoneStays(b', m, i, 1);
      }
      RunPlus(b', m, s, before, extra);
      k := before + extra;
    }
  }

  ghost predicate NeverStuck<M(!new)>(b: Body, m: Machine<M>, mem: M) {
    forall n: nat :: !Run(b, m, Start(mem), n).Stuck?
  }

  /**
   Every completed instrumented run is the image of a completed original run:
   same returned operand stack or same escaping exception, same memory, and a
   trace that is `enter`, the line markers with their probes, `exit`.
   */
  lemma {:induction false} CompletedRunsMatch<M(!new)>(p: Plan, b: Body, m: Machine<M>, mem: M, k: nat) returns (n: nat)
    requires Original(b) && SlotsFit(p) && NeverStuck(b, m, mem)
    requires !Run(Instrument(p, b), m, Start(mem), k).Running?
    ensures var o, i := Run(b, m, Start(mem), n), Run(Instrument(p, b), m, Start(mem), k);
            !o.Running? && Match(p, b, o, i)
  {
    hide Instrument, Run, Match;
    var b' := Instrument(p, b);
    n := k;
    var k' := RunMatches(p, b, m, mem, n);
    RunPlus(b', m, Start(mem), k, k' - k);
    DoneStays(b', m, Run(b', m, Start(mem), k), k' - k);
    MatchDone(p, b, Run(b, m, Start(mem), n), Run(b', m, Start(mem), k));
  }

  lemma {:induction false} MatchDone<M>(p: Plan, b: Body, o: Config<M>, i: Config<M>)
    requires Match(p, b, o, i)
    ensures o.Running? <==> i.Running?
  {
  }

  /** An original run completes if and only if the instrumented one does. */
  lemma {:induction false} CompletionAgrees<M(!new)>(p: Plan, b: Body, m: Machine<M>, mem: M)
    requires Original(b) && SlotsFit(p) && NeverStuck(b, m, mem)
    ensures (exists n: nat :: !Run(b, m, Start(mem), n).Running?) <==>
            (exists k: nat :: !Run(Instrument(p, b), m, Start(mem), k).Running?)
  {
    if n: nat :| !Run(b, m, Start(mem), n).Running? {
      var k := RunMatches(p, b, m, mem, n);
      assert !Run(Instrument(p, b), m, Start(mem), k).Running?;
    }
    if k: nat :| !Run(Instrument(p, b), m, Start(mem), k).Running? {
      var n := CompletedRunsMatch(p, b, m, mem, k);
      assert !Run(b, m, Start(mem), n).Running?;
    }
  }

  // ----- how often the method's own probes run -----

  predicate IsMethodProbe(e: Event) { e.Called? && (e.kind == Enter || e.kind == Exit) }

  /** The calls of `enter` and `exit` in a trace, in order. */
  function MethodProbes(trace: seq<Event>): seq<Event> {
    if trace == [] then []
    else MethodProbes(trace[..|trace| - 1]) + if IsMethodProbe(trace[|trace| - 1]) then trace[|trace| - 1..] else []
  }

  lemma {:induction false} MethodProbesOfConcat(s: seq<Event>, t: seq<Event>)
    ensures MethodProbes(s + t) == MethodProbes(s) + MethodProbes(t)
    decreases |t|
  {
    hide IsMethodProbe;
    if t == [] {
      assert s + t == s;
    } else {
      var n := |t| - 1;
      assert (s + t)[..|s| + n] == s + t[..n];
      assert (s + t)[|s| + n..] == t[n..];
      MethodProbesOfConcat(s, t[..n]);
    }
  }

  predicate OnlyLines(trace: seq<Event>) { forall k :: 0 <= k < |trace| ==> trace[k].AtLine? }

  predicate LineKinds(p: Plan) {
    forall n, k :: n in p.lines && 0 <= k < |p.lines[n]| ==> p.lines[n][k].kind in {EnterLine, ExitLine}
  }

  lemma {:induction false} NoneInLineEvents(ls: seq<LineInstrument>)
    requires forall k :: 0 <= k < |ls| ==> ls[k].kind in {EnterLine, ExitLine}
    ensures MethodProbes(LineEvents(ls)) == []
    decreases |ls|
  {
    if ls == [] {
    } else {
      var n := |ls| - 1;
      NoneInLineEvents(ls[..n]);
      assert LineEvents(ls)[..n] == LineEvents(ls[..n]);
    }
  }

  lemma {:induction false} NoneInWithProbes(p: Plan, trace: seq<Event>)
    requires LineKinds(p) && OnlyLines(trace)
    ensures MethodProbes(WithProbes(p, trace)) == []
    decreases |trace|
  {
    if trace == [] {
    } else {
      var n := |trace| - 1;
      var ls := p.At(trace[n].number);
      NoneInWithProbes(p, trace[..n]);
      NoneInLineEvents(ls);
      MethodProbesOfConcat([trace[n]], LineEvents(ls));
      MethodProbesOfConcat(WithProbes(p, trace[..n]), EventWithProbes(p, trace[n]));
    }
  }

  function TraceOf<M>(c: Config<M>): seq<Event> { if c.Stuck? then [] else c.trace }

  lemma {:induction false} OriginalTracesAreLines<M>(b: Body, m: Machine<M>, mem: M, n: nat)
    requires Original(b)
    ensures OnlyLines(TraceOf(Run(b, m, Start(mem), n)))
    decreases n
  {
    hide IndexOf, FindHandler;
    if n == 0 {
    } else {
      OriginalTracesAreLines(b, m, mem, n - 1);
      var c := Run(b, m, Start(mem), n - 1);
      RunPlus(b, m, Start(mem), n - 1, 1);
      RunOne(b, m, c);
      assert OnlyLines(TraceOf(Step(b, m, c)));
    }
  }

  /**
   On every completed run of an instrumented method, however it completes,
   `enter` runs exactly once and first, and `exit` exactly once and last.
   */
  lemma {:induction false} EnterOnceExitOnce<M(!new)>(p: Plan, b: Body, m: Machine<M>, mem: M, k: nat)
    requires Original(b) && SlotsFit(p) && LineKinds(p) && p.ident.Some? && NeverStuck(b, m, mem)
    requires !Run(Instrument(p, b), m, Start(mem), k).Running?
    ensures var c := Run(Instrument(p, b), m, Start(mem), k);
            var enter, exit := Called(Enter, p.ident.value), Called(Exit, p.ident.value);
            && !c.Stuck? && |c.trace| >= 2
            && c.trace[0] == enter && c.trace[|c.trace| - 1] == exit
            && MethodProbes(c.trace) == [enter, exit]
  {
    var n := CompletedRunsMatch(p, b, m, mem, k);
    OriginalTracesAreLines(b, m, mem, n);
    Bracketed(p, TraceOf(Run(b, m, Start(mem), n)));
  }

  lemma {:induction false} Bracketed(p: Plan, lines: seq<Event>)
    requires LineKinds(p) && p.ident.Some? && OnlyLines(lines)
    ensures MethodProbes(EnterEvents(p) + WithProbes(p, lines) + ExitEvents(p)) ==
            [Called(Enter, p.ident.value), Called(Exit, p.ident.value)]
  {
    NoneInWithProbes(p, lines);
    MethodProbesOfConcat(EnterEvents(p), WithProbes(p, lines));
    MethodProbesOfConcat(EnterEvents(p) + WithProbes(p, lines), ExitEvents(p));
    assert EnterEvents(p)[..0] == [] && ExitEvents(p)[..0] == [];
  }
}
