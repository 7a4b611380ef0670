/**
 The instrument life cycle as one value: the master registry, the queue of
 deferred instruments, the method and line records kept per loaded class, the
 profiler slots, and the probes present in the bytecode last installed for
 each class; and what it means for these to agree.
 */
module HandlerState {
  import opened Prelude

  type Id = nat

  datatype Side = Enter | Exit

  datatype Entry =
    | MethodEntry(cls: string, sig: string, deferred: bool)
    | LineEntry(cls: string, exitCls: string, line: int, exitLine: int, enterDeferred: bool, exitDeferred: bool)
  {
    function ClassOf(side: Side): string
      requires LineEntry?
    {
      if side == Enter then cls else exitCls
    }

    function LineOf(side: Side): int
      requires LineEntry?
    {
      if side == Enter then line else exitLine
    }

    predicate Waiting(side: Side)
      requires LineEntry?
    {
      if side == Enter then enterDeferred else exitDeferred
    }

    /** `mi_line_is_ready` */
    predicate Ready() { LineEntry? && !enterDeferred && !exitDeferred }

    function Applied(side: Side): Entry
      requires LineEntry?
    {
      if side == Enter then this.(enterDeferred := false) else this.(exitDeferred := false)
    }
  }

  datatype Item =
    | MethodItem(id: Id, slot: nat, cls: string, sig: string)
    | LineItem(id: Id, slot: nat, cls: string, line: int, side: Side)

  datatype MethodRec = MethodRec(sig: string, slot: nat, id: Id)

  datatype LineRec = LineRec(line: int, slot: nat, id: Id, side: Side)

  datatype Probe = MethodProbe(sig: string, slot: nat) | LineProbe(line: int, slot: nat, side: Side)

  datatype Slot = Slot(active: bool, id: Id)

  type Registry = map<Id, Entry>
  type Methods = map<string, seq<MethodRec>>
  type Lines = map<string, seq<LineRec>>
  type Installed = map<string, set<Probe>>

  /** `methods`, `lines` and `installed` have the loaded classes as their keys. */
  datatype State = State(
    registry: Registry,
    nextId: Id,
    queue: seq<Item>,
    methods: Methods,
    lines: Lines,
    slots: seq<Slot>,
    installed: Installed)

  // ----- the operations on the parts -----

  /** Position of the first record for `sig`; the length when there is none. */
  function FindSig(ms: seq<MethodRec>, sig: string): (p: nat)
    ensures p <= |ms|
    ensures p < |ms| ==> ms[p].sig == sig
    ensures forall q :: 0 <= q < p ==> ms[q].sig != sig
  {
    if ms == [] || ms[0].sig == sig then 0 else 1 + FindSig(ms[1..], sig)
  }

  /** Position of the first record with this line number; the length when there is none. */
  function FindLine(ls: seq<LineRec>, line: int): (p: nat)
    ensures p <= |ls|
    ensures p < |ls| ==> ls[p].line == line
    ensures forall q :: 0 <= q < p ==> ls[q].line != line
  {
    if ls == [] || ls[0].line == line then 0 else 1 + FindLine(ls[1..], line)
  }

  function DropSig(ms: seq<MethodRec>, sig: string): seq<MethodRec> {
    var p := FindSig(ms, sig);
    if p < |ms| then Without(ms, p) else ms
  }

  /** Records are dropped by line number alone, whoever owns them. */
  function DropLine(ls: seq<LineRec>, line: int): seq<LineRec> {
    var p := FindLine(ls, line);
    if p < |ls| then Without(ls, p) else ls
  }

  // ----- taking instruments away by number -----

  /** The elements whose number is not in `ids`, in order. */
  function Drop<T>(s: seq<T>, idOf: T -> Id, ids: set<Id>): seq<T> {
    if s == [] then []
    else Drop(s[..|s| - 1], idOf, ids) + if idOf(s[|s| - 1]) in ids then [] else [s[|s| - 1]]
  }

  function ItemId(it: Item): Id { it.id }

  function MethodRecId(r: MethodRec): Id { r.id }

  function LineRecId(r: LineRec): Id { r.id }

  /** The state without the instruments `ids`: no entry, no queue item, no
      record, no active slot. The installed bytecode is left as it is. */
  function Retire(s: State, ids: set<Id>): State {
    s.(registry := s.registry - ids,
       queue := Drop(s.queue, ItemId, ids),
       methods := map c | c in s.methods :: Drop(s.methods[c], MethodRecId, ids),
       lines := map c | c in s.lines :: Drop(s.lines[c], LineRecId, ids),
       slots := RetireSlots(s.slots, ids))
  }

  function RetireSlots(slots: seq<Slot>, ids: set<Id>): seq<Slot> {
    seq(|slots|, i requires 0 <= i < |slots| => if slots[i].id in ids then slots[i].(active := false) else slots[i])
  }

  /** `ProfilerRegistry.remove`; an unknown slot number changes nothing. */
  function Freed(slots: seq<Slot>, i: int): seq<Slot> {
    if 0 <= i < |slots| then slots[i := slots[i].(active := false)] else slots
  }

  /** The probes a class's records ask for. */
  function Wanted(ms: seq<MethodRec>, ls: seq<LineRec>): set<Probe> {
    (set m | m in ms :: MethodProbe(m.sig, m.slot)) + (set l | l in ls :: LineProbe(l.line, l.slot, l.side))
  }

  predicate MethodAt(reg: Registry, id: Id) { id in reg && reg[id].MethodEntry? }

  predicate LineAt(reg: Registry, id: Id) { id in reg && reg[id].LineEntry? }

  // ----- agreement that needs no hypothesis -----

  ghost predicate IdsOk(reg: Registry, nextId: Id) {
    nextId > 0 && forall id :: id in reg ==> 0 < id < nextId
  }

  /** The queue item is for a live, still deferred instrument, and waits for a
      class that is not loaded, or for the one being loaded. */
  predicate ItemOk(reg: Registry, loaded: set<string>, it: Item, loading: Option<string>) {
    && (it.cls in loaded ==> loading == Some(it.cls))
    && it.id in reg
    && match it
       case MethodItem(id, _, cls, sig) => reg[id] == MethodEntry(cls, sig, true)
       case LineItem(id, _, cls, line, side) =>
         reg[id].LineEntry? && reg[id].ClassOf(side) == cls && reg[id].LineOf(side) == line && reg[id].Waiting(side)
  }

  predicate SameTask(a: Item, b: Item) {
    a.id == b.id && (a.MethodItem? || b.MethodItem? || a.side == b.side)
  }

  ghost predicate QueueOk(reg: Registry, q: seq<Item>, loaded: set<string>, loading: Option<string>) {
    && (forall it :: it in q ==> ItemOk(reg, loaded, it, loading))
    && (forall i, j :: 0 <= i < j < |q| ==> !SameTask(q[i], q[j]))
  }

  /** The two items of a waiting line name the same slot. */
  ghost predicate OneSlotEach(q: seq<Item>) { forall a, b :: a in q && b in q && a.id == b.id ==> a.slot == b.slot }

  ghost predicate HasMethodItem(q: seq<Item>, id: Id) { exists it :: it in q && it.id == id && it.MethodItem? }

  ghost predicate HasLineItem(q: seq<Item>, id: Id, side: Side) {
    exists it :: it in q && it.id == id && it.LineItem? && it.side == side
  }

  /** Every deferral flag has its queue item; with `QueueOk`, exactly one. */
  ghost predicate DeferredAreQueued(reg: Registry, q: seq<Item>) {
    && (forall id :: MethodAt(reg, id) && reg[id].deferred ==> HasMethodItem(q, id))
    && (forall id, side: Side :: LineAt(reg, id) && reg[id].Waiting(side) ==> HasLineItem(q, id, side))
  }

  ghost predicate HasMethodRec(ms: Methods, cls: string, id: Id) {
    cls in ms && exists r :: r in ms[cls] && r.id == id
  }

  /** A method entry that is not deferred has exactly one record, in its class;
      every method record belongs to such an entry. */
  ghost predicate MethodsOk(reg: Registry, ms: Methods) {
    && (forall c, r {:trigger r in ms[c]} :: c in ms && r in ms[c] ==>
        r.id in reg && reg[r.id] == MethodEntry(c, r.sig, false))
    && (forall c, p, q :: c in ms && 0 <= p < q < |ms[c]| ==> ms[c][p].id != ms[c][q].id)
    && (forall id :: MethodAt(reg, id) && !reg[id].deferred ==> HasMethodRec(ms, reg[id].cls, id))
  }

  ghost predicate OnePerMethod(reg: Registry) {
    forall a, b :: MethodAt(reg, a) && MethodAt(reg, b) && a != b ==>
      reg[a].cls != reg[b].cls || reg[a].sig != reg[b].sig
  }

  /** A line side that no longer waits has its class loaded, except that within
      one class the exit side never waits on its own. */
  ghost predicate LineClassesOk(reg: Registry, loaded: set<string>) {
    forall id :: LineAt(reg, id) ==>
      var e := reg[id];
      && (!e.enterDeferred ==> e.cls in loaded)
      && (!e.exitDeferred ==> e.exitCls in loaded || (e.exitCls == e.cls && e.enterDeferred))
  }

  /** A line record's number is never that of a method, of a waiting line, or of
      a line whose side is in another class. */
  ghost predicate LineRecsKnown(reg: Registry, nextId: Id, ls: Lines) {
    forall c, r {:trigger r in ls[c]} :: c in ls && r in ls[c] ==>
      0 < r.id < nextId && (r.id in reg ==> reg[r.id].Ready() && reg[r.id].ClassOf(r.side) == c)
  }

  ghost predicate MethodsInstalled(ms: Methods, installed: Installed) {
    forall c, r {:trigger r in ms[c]} :: c in ms && r in ms[c] ==>
      c in installed && MethodProbe(r.sig, r.slot) in installed[c]
  }

  ghost predicate Base(s: State, loading: Option<string>) {
    && s.methods.Keys == s.lines.Keys == s.installed.Keys
    && IdsOk(s.registry, s.nextId)
    && QueueOk(s.registry, s.queue, s.methods.Keys, loading)
    && OneSlotEach(s.queue)
    && DeferredAreQueued(s.registry, s.queue)
    && MethodsOk(s.registry, s.methods)
    && OnePerMethod(s.registry)
    && LineClassesOk(s.registry, s.methods.Keys)
    && LineRecsKnown(s.registry, s.nextId, s.lines)
    && MethodsInstalled(s.methods, s.installed)
  }

  // ----- agreement that needs distinct lines -----

  predicate NoSharedPlace(e: Entry, f: Entry)
    requires e.LineEntry? && f.LineEntry?
  {
    forall x: Side, y: Side :: e.ClassOf(x) == f.ClassOf(y) ==> e.LineOf(x) != f.LineOf(y)
  }

  /** No two live line instruments share a class and a line. */
  ghost predicate DistinctLines(reg: Registry) {
    forall a, b :: LineAt(reg, a) && LineAt(reg, b) && a != b ==> NoSharedPlace(reg[a], reg[b])
  }

  /** A new line instrument at these places would share none with a live one. */
  ghost predicate Apart(reg: Registry, e: Entry)
    requires e.LineEntry?
  {
    forall a :: LineAt(reg, a) ==> NoSharedPlace(reg[a], e) && NoSharedPlace(e, reg[a])
  }

  ghost predicate HasLineRec(ls: Lines, cls: string, id: Id, side: Side) {
    cls in ls && exists r :: r in ls[cls] && r.id == id && r.side == side
  }

  predicate LineRecOk(reg: Registry, c: string, r: LineRec) {
    r.id in reg && reg[r.id].Ready() && reg[r.id].ClassOf(r.side) == c && reg[r.id].LineOf(r.side) == r.line
  }

  ghost predicate OneRecPerSide(ls: seq<LineRec>) {
    forall p, q :: 0 <= p < q < |ls| ==> !(ls[p].id == ls[q].id && ls[p].side == ls[q].side)
  }

  /** A ready line has exactly its ENTER and EXIT records; every line record
      belongs to a ready line. */
  ghost predicate LinesOk(reg: Registry, ls: Lines) {
    && (forall c, r {:trigger r in ls[c]} :: c in ls && r in ls[c] ==> LineRecOk(reg, c, r))
    && (forall c :: c in ls ==> OneRecPerSide(ls[c]))
    && (forall id, side: Side :: LineAt(reg, id) && reg[id].Ready() ==> HasLineRec(ls, reg[id].ClassOf(side), id, side))
  }

  /** Slot `i` is active and carries `id`. */
  predicate Owns(slots: seq<Slot>, i: int, id: Id) { 0 <= i < |slots| && slots[i] == Slot(true, id) }

  ghost predicate HasSlot(slots: seq<Slot>, id: Id) { exists i :: Owns(slots, i, id) }

  /** Live instruments and active slots are in bijection. */
  ghost predicate SlotsOk(live: set<Id>, slots: seq<Slot>) {
    && (forall i, id :: Owns(slots, i, id) ==> id in live)
    && (forall i, j, id :: Owns(slots, i, id) && Owns(slots, j, id) ==> i == j)
    && (forall id :: id in live ==> HasSlot(slots, id))
  }

  /** Every queue item and record names the slot its instrument owns. */
  ghost predicate ItemSlots(q: seq<Item>, slots: seq<Slot>) { forall it :: it in q ==> Owns(slots, it.slot, it.id) }

  ghost predicate MethodSlots(ms: Methods, slots: seq<Slot>) {
    forall c, r {:trigger r in ms[c]} :: c in ms && r in ms[c] ==> Owns(slots, r.slot, r.id)
  }

  ghost predicate LineSlots(ls: Lines, slots: seq<Slot>) {
    forall c, r {:trigger r in ls[c]} :: c in ls && r in ls[c] ==> Owns(slots, r.slot, r.id)
  }

  ghost predicate LinesInstalled(ls: Lines, installed: Installed) {
    forall c, r {:trigger r in ls[c]} :: c in ls && r in ls[c] ==>
      c in installed && LineProbe(r.line, r.slot, r.side) in installed[c]
  }

  ghost predicate Full(s: State) {
    && DistinctLines(s.registry)
    && LinesOk(s.registry, s.lines)
    && SlotsOk(s.registry.Keys, s.slots)
    && ItemSlots(s.queue, s.slots) && MethodSlots(s.methods, s.slots) && LineSlots(s.lines, s.slots)
    && LinesInstalled(s.lines, s.installed)
  }

  /** The invariant of the handler. `distinct` records whether every line
      request so far kept away from the lines of the live ones. */
  ghost predicate Inv(s: State, distinct: bool, loading: Option<string>) {
    Base(s, loading) && (distinct ==> Full(s))
  }

  /** The active slots, by slot number. */
  ghost function ActiveSlots(slots: seq<Slot>): map<int, Id> {
    map i | 0 <= i < |slots| && slots[i].active :: slots[i].id
  }
}
