/**
 A method body as ASM's visitor stream presents it, and what running it means.

 The stream is a sequence of instructions in which labels and line markers
 occupy positions of their own, plus an ordered exception table over labels.
 Instructions the instrumenter never looks at are `Op`s: their effect is an
 arbitrary function of the operand stack and of the rest of the machine, so
 everything proved here holds for every such function.
 */
module MethodBody {
  import opened Prelude

  /** Labels of the class file are `User` labels; the two others are the
      `new Label()` objects the instrumenter makes. */
  datatype LabelId = User(n: nat) | StartFinally | EndFinally

  datatype ProbeKind = Enter | Exit | EnterLine | ExitLine

  datatype Instr =
    | Label(id: LabelId)
    | Line(number: int)
    | Insn(opcode: int)                     // no operand
    | IntInsn(opcode: int, operand: int)    // one immediate operand
    | Ldc(value: int)                       // integer constant from the pool
    | Probe(kind: ProbeKind)                // INVOKESTATIC of a registry probe
    | Op(code: nat, targets: seq<LabelId>)  // anything else, jumps included

  datatype Handler = Handler(start: LabelId, end: LabelId, target: LabelId, catchType: Option<nat>)

  datatype Body = Body(code: seq<Instr>, table: seq<Handler>)

  const ICONST_M1 := 2
  const ICONST_0 := 3
  const ICONST_5 := 8
  const BIPUSH := 16
  const SIPUSH := 17
  const IRETURN := 172
  const RETURN := 177
  const ATHROW := 191

  predicate IsReturn(opcode: int) { IRETURN <= opcode <= RETURN }

  predicate IsIConst(opcode: int) { ICONST_M1 <= opcode <= ICONST_5 }

  /** The signed number held in the low bits of `v`, for a field of `span` values. */
  function Signed(v: int, span: int): int
    requires span > 0
  {
    var low := v % span;
    if 2 * low < span then low else low - span
  }

  datatype Value = IntVal(i: int) | Ref(object_: nat) | OtherVal(word: int)

  datatype Effect<M> =
    | Next(stack: seq<Value>, mem: M)
    | Goto(choice: nat, stack: seq<Value>, mem: M)
    | Throw(exc: nat, mem: M)

  /** What the uninspected instructions do, and which throwables a catch type matches. */
  datatype Machine<!M> = Machine(
    effect: (Instr, seq<Value>, M) -> Effect<M>,
    instanceOf: (nat, nat) -> bool)

  /** Observable history of a run: line markers passed and probes called. */
  datatype Event = AtLine(number: int) | Called(kind: ProbeKind, id: int)

  datatype Config<M> =
    | Running(pc: nat, stack: seq<Value>, mem: M, trace: seq<Event>)
    | Returned(opcode: int, stack: seq<Value>, mem: M, trace: seq<Event>)
    | Escaped(exc: nat, mem: M, trace: seq<Event>)
    | Stuck

  /** Position of a label; the code's length when the label is not defined. */
  function IndexOf(code: seq<Instr>, l: LabelId): (k: nat)
    ensures k <= |code|
    ensures k < |code| ==> code[k] == Label(l)
    ensures forall j :: 0 <= j < k ==> code[j] != Label(l)
  {
    if code == [] then 0
    else if code[0] == Label(l) then 0
    else 1 + IndexOf(code[1..], l)
  }

  predicate Defines(code: seq<Instr>, l: LabelId) { Label(l) in code }

  predicate Catches<M>(b: Body, m: Machine<M>, h: Handler, pc: nat, exc: nat) {
    && IndexOf(b.code, h.start) <= pc < IndexOf(b.code, h.end)
    && (h.catchType.None? || m.instanceOf(exc, h.catchType.value))
  }

  /** The first entry of `table` that covers `pc` and matches (JVMS section 2.10). */
  function FindHandler<M>(b: Body, table: seq<Handler>, m: Machine<M>, pc: nat, exc: nat): Option<LabelId> {
    if table == [] then None
    else if Catches(b, m, table[0], pc, exc) then Some(table[0].target)
    else FindHandler(b, table[1..], m, pc, exc)
  }

  /** What one instruction asks for, independently of the code around it. */
  datatype Action<M> =
    | Forward(stack: seq<Value>, mem: M, events: seq<Event>)
    | JumpTo(label_: LabelId, stack: seq<Value>, mem: M)
    | RaiseIt(exc: nat, mem: M)
    | ReturnIt(opcode: int)
    | Invalid

  function Push<M>(stack: seq<Value>, mem: M, v: int): Action<M> { Forward(stack + [IntVal(v)], mem, []) }

  function Perform<M>(i: Instr, e: Effect<M>): Action<M> {
    match e
    case Next(stack, mem) => Forward(stack, mem, [])
    case Goto(j, stack, mem) => if i.Op? && j < |i.targets| then JumpTo(i.targets[j], stack, mem) else Invalid
    case Throw(exc, mem) => RaiseIt(exc, mem)
  }

  function Act<M>(m: Machine<M>, i: Instr, stack: seq<Value>, mem: M): Action<M> {
    var top := |stack| - 1;
    match i
    case Label(_) => Forward(stack, mem, [])
    case Line(n) => Forward(stack, mem, [AtLine(n)])
    case Insn(opcode) =>
      if IsReturn(opcode) then ReturnIt(opcode)
      else if IsIConst(opcode) then Push(stack, mem, opcode - ICONST_0)
      else if opcode == ATHROW && top >= 0 && stack[top].Ref? then RaiseIt(stack[top].object_, mem)
      else Perform(i, m.effect(i, stack, mem))
    case IntInsn(opcode, n) =>
      if opcode == BIPUSH then Push(stack, mem, Signed(n, 0x100))
      else if opcode == SIPUSH then Push(stack, mem, Signed(n, 0x1_0000))
      else Perform(i, m.effect(i, stack, mem))
    case Ldc(n) => Push(stack, mem, n)
    case Probe(kind) =>
      if top >= 0 && stack[top].IntVal? then Forward(stack[..top], mem, [Called(kind, stack[top].i)]) else Invalid
    case Op(_, _) => Perform(i, m.effect(i, stack, mem))
  }

  function Raise<M>(b: Body, m: Machine<M>, pc: nat, exc: nat, mem: M, trace: seq<Event>): Config<M> {
    match FindHandler(b, b.table, m, pc, exc)
    case None => Escaped(exc, mem, trace)
    case Some(l) => Running(IndexOf(b.code, l), [Ref(exc)], mem, trace)
  }

  function Follow<M>(b: Body, m: Machine<M>, c: Config<M>, a: Action<M>): Config<M>
    requires c.Running?
  {
    match a
    case Forward(stack, mem, events) => Running(c.pc + 1, stack, mem, c.trace + events)
    case JumpTo(l, stack, mem) => Running(IndexOf(b.code, l), stack, mem, c.trace)
    case RaiseIt(exc, mem) => Raise(b, m, c.pc, exc, mem, c.trace)
    case ReturnIt(opcode) => Returned(opcode, c.stack, c.mem, c.trace)
    case Invalid => Stuck
  }

  /** One step. Completed and stuck runs stay where they are. */
  function Step<M>(b: Body, m: Machine<M>, c: Config<M>): Config<M> {
    if !c.Running? then c
    else if c.pc >= |b.code| then Stuck
    else Follow(b, m, c, Act(m, b.code[c.pc], c.stack, c.mem))
  }

  function Run<M>(b: Body, m: Machine<M>, c: Config<M>, n: nat): Config<M>
    decreases n
  {
    if n == 0 then c else Run(b, m, Step(b, m, c), n - 1)
  }

  /** A call starts at the first instruction with an empty operand stack. */
  function Start<M>(mem: M): Config<M> { Running(0, [], mem, []) }

  /** What a class file's method body looks like before instrumentation. */
  predicate Original(b: Body) {
    && (forall k :: 0 <= k < |b.code| ==> !b.code[k].Probe? && (b.code[k].Label? ==> b.code[k].id.User?))
    && (forall k, j :: 0 <= k < |b.code| && b.code[k].Op? && 0 <= j < |b.code[k].targets| ==>
          Defines(b.code, b.code[k].targets[j]))
    && (forall k :: 0 <= k < |b.table| ==>
          Defines(b.code, b.table[k].start) && Defines(b.code, b.table[k].end) && Defines(b.code, b.table[k].target))
  }

  /** The row with that number covers the place and its type, if it has one, matches. */
  predicate Applies<M>(b: Body, table: seq<Handler>, m: Machine<M>, pc: nat, exc: nat, k: nat) {
    k < |table| && IndexOf(b.code, table[k].start) <= pc && pc < IndexOf(b.code, table[k].end) &&
    match table[k].catchType
    case None => true
    case Some(t) => m.instanceOf(exc, t)
  }

  lemma {:induction false} AppliesLater<M>(b: Body, table: seq<Handler>, m: Machine<M>, pc: nat, exc: nat, k: nat)
    ensures Applies(b, table, m, pc, exc, k + 1) <==> table != [] && Applies(b, table[1..], m, pc, exc, k)
  {
  }

  /** The first row that applies is the one that catches. */
  lemma {:induction false} FirstHandler<M>(b: Body, table: seq<Handler>, m: Machine<M>, pc: nat, exc: nat, k: nat)
    requires Applies(b, table, m, pc, exc, k) && forall j: nat :: j < k ==> !Applies(b, table, m, pc, exc, j)
    ensures FindHandler(b, table, m, pc, exc) == Some(table[k].target)
    decreases k
  {
    if k == 0 {
    } else {
      hide IndexOf;
      assert !Applies(b, table, m, pc, exc, 0);
      AppliesLater(b, table, m, pc, exc, k - 1);
      forall j: nat | j < k - 1 ensures !Applies(b, table[1..], m, pc, exc, j) {
        AppliesLater(b, table, m, pc, exc, j);
      }
      FirstHandler(b, table[1..], m, pc, exc, k - 1);
    }
  }

  /** If no row applies nothing catches. */
  lemma {:induction false} NoHandler<M>(b: Body, table: seq<Handler>, m: Machine<M>, pc: nat, exc: nat)
    requires forall j: nat :: j < |table| ==> !Applies(b, table, m, pc, exc, j)
    ensures FindHandler(b, table, m, pc, exc) == None
  {
    if table == [] {
    } else {
      hide IndexOf;
      assert !Applies(b, table, m, pc, exc, 0);
      forall j: nat | j < |table| - 1 ensures !Applies(b, table[1..], m, pc, exc, j) {
        AppliesLater(b, table, m, pc, exc, j);
      }
      NoHandler(b, table[1..], m, pc, exc);
    }
  }

  /** The instructions the instrumenter writes or looks for, by their opcodes (JVMS section 6.5). */
  lemma {:induction false} KnownOpcodes<M>(m: Machine<M>, stack: seq<Value>, mem: M, n: int, exc: nat)
    ensures -1 <= n <= 5 ==> Act(m, Insn(3 + n), stack, mem) == Forward(stack + [IntVal(n)], mem, [])
    ensures -128 <= n <= 127 ==> Act(m, IntInsn(16, n), stack, mem) == Forward(stack + [IntVal(n)], mem, [])
    ensures -32768 <= n <= 32767 ==> Act(m, IntInsn(17, n), stack, mem) == Forward(stack + [IntVal(n)], mem, [])
    ensures 172 <= n <= 177 ==> Act(m, Insn(n), stack, mem) == ReturnIt(n)
    ensures Act(m, Insn(191), stack + [Ref(exc)], mem) == RaiseIt(exc, mem)
  {
  }

  lemma {:induction false} RunPlus<M>(b: Body, m: Machine<M>, c: Config<M>, j: nat, k: nat)
    ensures Run(b, m, c, j + k) == Run(b, m, Run(b, m, c, j), k)
    decreases j
  {
    if j == 0 {
    } else {
      RunPlus(b, m, Step(b, m, c), j - 1, k);
    }
  }

  lemma {:induction false} DoneStays<M>(b: Body, m: Machine<M>, c: Config<M>, n: nat)
    requires !c.Running?
    ensures Run(b, m, c, n) == c
    decreases n
  {
    if n == 0 {
    } else {
      DoneStays(b, m, c, n - 1);
    }
  }

  lemma {:induction false} RunOne<M>(b: Body, m: Machine<M>, c: Config<M>)
    ensures Run(b, m, c, 1) == Step(b, m, c)
  {
    assert Run(b, m, Step(b, m, c), 0) == Step(b, m, c);
  }
}
