/**
 The four places the handler keeps its state in, each as an object with its
 own operations: the master registry, the deferred queue, the records of one
 class, and the Java side's profiler slots. Allocation may fail at any time.
 */
module HandlerObjects {
  import opened Prelude
  import opened HandlerState
  import opened HandlerLemmas
  import opened Environment

  class MasterInstruments {
    var entries: Registry
    var nextId: Id

    constructor ()
      ensures entries == map[] && nextId == 1
    {
      entries, nextId := map[], 1;
    }

    /** Ids start at one and go up; a failed insertion uses none and returns zero. */
    method Insert(e: Entry, env: World) returns (id: Id)
      requires nextId > 0
      modifies this, env
      ensures Went(old(env.log), env.log, id != 0)
      ensures id == 0 ==> entries == old(entries) && nextId == old(nextId)
      ensures id != 0 ==> id == old(nextId) && entries == old(entries)[id := e] && nextId == old(nextId) + 1
    {
      ghost var was := env.log;
      var ok := env.Ask(Memory);
      WentOne(was, Call(Memory, ok));
      if !ok {
        return 0;
      }
      id := nextId;
      entries, nextId := entries[id := e], nextId + 1;
    }

    method Remove(id: Id)
      modifies this
      ensures entries == old(entries) - {id} && nextId == old(nextId)
    {
      entries := entries - {id};
    }

    method MarkMethodApplied(id: Id)
      modifies this
      ensures nextId == old(nextId)
      ensures entries == if MethodAt(old(entries), id) then old(entries)[id := old(entries)[id].(deferred := false)]
                         else old(entries)
    {
      if id in entries && entries[id].MethodEntry? {
        entries := entries[id := entries[id].(deferred := false)];
      }
    }

    method MarkLineApplied(id: Id, side: Side)
      modifies this
      ensures nextId == old(nextId)
      ensures entries == if LineAt(old(entries), id) then old(entries)[id := old(entries)[id].Applied(side)]
                         else old(entries)
    {
      if id in entries && entries[id].LineEntry? {
        entries := entries[id := entries[id].Applied(side)];
      }
    }

    /** Looks through the entries for a method instrument of this name. */
    method FindMethod(cls: string, sig: string) returns (r: Option<Id>)
      ensures r.Some? ==> MethodAt(entries, r.value) && entries[r.value].cls == cls && entries[r.value].sig == sig
      ensures r.None? ==> NewMethod(entries, cls, sig)
    {
      var left := entries.Keys;
      while left != {}
        invariant left <= entries.Keys
        invariant forall id :: MethodAt(entries, id) && id !in left ==> entries[id].cls != cls || entries[id].sig != sig
        decreases left
      {
        var id := AnyOf(left);
        if entries[id].MethodEntry? && entries[id].cls == cls && entries[id].sig == sig {
          return Some(id);
        }
        left := left - {id};
      }
      r := None;
    }
  }

  /** Growing the array may fail, and so may copying the strings of an item
      that has already been appended. */
  datatype Queued = NotAdded | Incomplete | Complete

  class InstrumentQueue {
    var items: seq<Item>

    constructor ()
      ensures items == []
    {
      items := [];
    }

    method Append(it: Item, env: World) returns (r: Queued)
      modifies this, env
      ensures Went(old(env.log), env.log, r == Complete)
      ensures items == if r == NotAdded then old(items) else old(items) + [it]
    {
      ghost var was := env.log;
      var grown := env.Ask(Memory);
      ghost var mid := env.log;
      WentOne(was, Call(Memory, grown));
      if !grown {
        return NotAdded;
      }
      items := items + [it];
      var copied := env.Ask(Memory);
      WentOne(mid, Call(Memory, copied));
      WentOn(was, mid, env.log, grown, copied);
      r := if copied then Complete else Incomplete;
    }

    method RemoveAt(p: nat)
      requires p < |items|
      modifies this
      ensures items == Without(old(items), p)
    {
      items := items[..p] + items[p + 1..];
    }

    method FindByClass(cls: string) returns (p: int)
      ensures p >= -1 && (p < 0 ==> forall it :: it in items ==> it.cls != cls)
      ensures p >= 0 ==> p < |items| && items[p].cls == cls && forall q :: 0 <= q < p ==> items[q].cls != cls
    {
      p := 0;
      while p < |items|
        invariant 0 <= p <= |items| && forall q :: 0 <= q < p ==> items[q].cls != cls
      {
        if items[p].cls == cls {
          return;
        }
        p := p + 1;
      }
      p := -1;
    }

    method FindById(id: Id) returns (p: int)
      ensures p >= -1 && (p < 0 ==> forall it :: it in items ==> it.id != id)
      ensures p >= 0 ==> p < |items| && items[p].id == id && forall q :: 0 <= q < p ==> items[q].id != id
    {
      p := 0;
      while p < |items|
        invariant 0 <= p <= |items| && forall q :: 0 <= q < p ==> items[q].id != id
      {
        if items[p].id == id {
          return;
        }
        p := p + 1;
      }
      p := -1;
    }
  }

  /** The profiler slots of the instrumentation runtime. */
  class ProfilerSlots {
    var slots: seq<Slot>

    constructor ()
      ensures slots == []
    {
      slots := [];
    }

    /** Reuses the first inactive slot, or makes a new one. */
    method Create(id: Id, env: World) returns (slot: int)
      modifies this, env
      ensures Went(old(env.log), env.log, slot >= 0)
      ensures slot >= -1 && (slot == -1 ==> slots == old(slots))
      ensures slot >= 0 ==> Created(old(slots), slots, slot, id)
      ensures slot >= 0 ==> forall i :: 0 <= i < slot ==> old(slots)[i].active
    {
      ghost var was := env.log;
      var ok := env.Ask(Profiler);
      WentOne(was, Call(Profiler, ok));
      if !ok {
        return -1;
      }
      for i := 0 to |slots|
        invariant slots == old(slots) && env.log == was + [Call(Profiler, true)]
        invariant forall j :: 0 <= j < i ==> slots[j].active
      {
        if !slots[i].active {
          slots := slots[i := Slot(true, id)];
          return i;
        }
      }
      slot := |slots|;
      slots := slots + [Slot(true, id)];
    }

    method Remove(slot: int)
      modifies this
      ensures slots == Freed(old(slots), slot)
    {
      if 0 <= slot < |slots| {
        slots := slots[slot := slots[slot].(active := false)];
      }
    }
  }

  class ClassInfo {
    const name: string
    var methods: seq<MethodRec>
    var lines: seq<LineRec>

    constructor (name: string)
      ensures this.name == name && methods == [] && lines == []
    {
      this.name, methods, lines := name, [], [];
    }

    method AddMethod(r: MethodRec, env: World) returns (ok: bool)
      modifies this, env
      ensures Went(old(env.log), env.log, ok)
      ensures methods == (if ok then old(methods) + [r] else old(methods)) && lines == old(lines)
    {
      ghost var was := env.log;
      ok := env.Ask(Memory);
      WentOne(was, Call(Memory, ok));
      if ok {
        methods := methods + [r];
      }
    }

    method AddLine(r: LineRec, env: World) returns (ok: bool)
      modifies this, env
      ensures Went(old(env.log), env.log, ok)
      ensures lines == (if ok then old(lines) + [r] else old(lines)) && methods == old(methods)
    {
      ghost var was := env.log;
      ok := env.Ask(Memory);
      WentOne(was, Call(Memory, ok));
      if ok {
        lines := lines + [r];
      }
    }

    /** The slot of the removed record, or -1 when there is none. */
    method RemoveMethod(sig: string) returns (slot: int)
      modifies this
      ensures methods == DropSig(old(methods), sig) && lines == old(lines)
      ensures var p := FindSig(old(methods), sig); slot == if p < |old(methods)| then old(methods)[p].slot else -1
    {
      var i := 0;
      while i < |methods|
        invariant 0 <= i <= FindSig(methods, sig) && methods == old(methods) && lines == old(lines)
      {
        if methods[i].sig == sig {
          slot := methods[i].slot;
          methods := Without(methods, i);
          return;
        }
        i := i + 1;
      }
      slot := -1;
    }

    method RemoveLine(line: int) returns (slot: int)
      modifies this
      ensures lines == DropLine(old(lines), line) && methods == old(methods)
      ensures var p := FindLine(old(lines), line); slot == if p < |old(lines)| then old(lines)[p].slot else -1
    {
      var i := 0;
      while i < |lines|
        invariant 0 <= i <= FindLine(lines, line) && lines == old(lines) && methods == old(methods)
      {
        if lines[i].line == line {
          slot := lines[i].slot;
          lines := Without(lines, i);
          return;
        }
        i := i + 1;
      }
      slot := -1;
    }

    method StealFrom(src: ClassInfo)
      requires src != this
      modifies this, src
      ensures methods == old(src.methods) && lines == old(src.lines)
      ensures src.methods == [] && src.lines == []
    {
      methods, lines := src.methods, src.lines;
      src.methods, src.lines := [], [];
    }

    method Clear()
      modifies this
      ensures methods == [] && lines == []
    {
      methods, lines := [], [];
    }
  }
}
