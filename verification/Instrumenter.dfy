/**
 The instrumentation pass: what it makes of a method body, as a function of
 the body and of the probes requested.
 */
module Instrumenter {
  import opened Prelude
  import opened MethodBody

  /** A probe requested at a source line; `kind` is EnterLine or ExitLine. */
  datatype LineInstrument = LineInstrument(kind: ProbeKind, profilerId: int)

  /** What to do to one method: its profiler slot if the method itself is
      instrumented, and the probes wanted at each line. */
  datatype Plan = Plan(ident: Option<int>, lines: map<int, seq<LineInstrument>>) {
    function At(line: int): seq<LineInstrument> { if line in lines then lines[line] else [] }
  }

  /** The shortest instruction that pushes a 32-bit constant. */
  function PushInt(v: int): Instr {
    if -1 <= v <= 5 then Insn(ICONST_0 + v)
    else if -0x80 <= v < 0x80 then IntInsn(BIPUSH, v)
    else if -0x8000 <= v < 0x8000 then IntInsn(SIPUSH, v)
    else Ldc(v)
  }

  function Call(kind: ProbeKind, id: int): seq<Instr> { [PushInt(id), Probe(kind)] }

  function LineCalls(ls: seq<LineInstrument>): (r: seq<Instr>)
    ensures |r| == 2 * |ls|
  {
    if ls == [] then [] else LineCalls(ls[..|ls| - 1]) + Call(ls[|ls| - 1].kind, ls[|ls| - 1].profilerId)
  }

  /** What the adapter forwards when it visits one instruction. */
  function Expand(p: Plan, i: Instr): (r: seq<Instr>)
    ensures |r| > 0
  {
    match i
    case Line(n) => [i] + LineCalls(p.At(n))
    case Insn(opcode) => if p.ident.Some? && IsReturn(opcode) then Call(Exit, p.ident.value) + [i] else [i]
    case _ => [i]
  }

  function ExpandAll(p: Plan, code: seq<Instr>): (r: seq<Instr>)
    ensures |r| >= |code|
  {
    if code == [] then [] else ExpandAll(p, code[..|code| - 1]) + Expand(p, code[|code| - 1])
  }

  function Prologue(p: Plan): seq<Instr> {
    if p.ident.Some? then [Label(StartFinally)] + Call(Enter, p.ident.value) else []
  }

  function Epilogue(p: Plan): seq<Instr> {
    if p.ident.Some? then [Label(EndFinally)] + Call(Exit, p.ident.value) + [Insn(ATHROW)] else []
  }

  /** The catch-all is visited last, so it has the lowest priority. */
  function CatchAll(p: Plan): seq<Handler> {
    if p.ident.Some? then [Handler(StartFinally, EndFinally, EndFinally, None)] else []
  }

  function Instrument(p: Plan, b: Body): Body {
    Body(Prologue(p) + ExpandAll(p, b.code) + Epilogue(p), b.table + CatchAll(p))
  }
}
