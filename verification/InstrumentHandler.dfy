/**
 The instrument handler: client requests and class loads, one at a time, over
 the registry, the queue, the class records, the profiler slots and the
 installed bytecode. Every call into the JVM and every allocation may fail.
 */
module InstrumentHandler {
  import opened Prelude
  import opened HandlerState
  import opened HandlerLemmas
  import opened RetireLemmas
  import opened RollbackLemmas
  import opened HandlerOutcomes
  import opened ReloadLemmas
  import opened DrainLemmas
  import opened HandlerObjects
  import opened Environment

  /** What the clients and the JVM ask for. */
  datatype Event =
    | InstrumentMethodRequest(cls: string, sig: string)
    | InstrumentLineRequest(enterCls: string, exitCls: string, line: int, exitLine: int)
    | DeinstrumentRequest(id: Id)
    | DeinstrumentMethodRequest(cls: string, sig: string)
    | ClassLoad(name: string)

  datatype Bytecode = Bytecode(cls: string, probes: set<Probe>)

  predicate Describes(ci: ClassInfo, name: string, ms: seq<MethodRec>, ls: seq<LineRec>)
    reads ci
  {
    ci.name == name && ci.methods == ms && ci.lines == ls
  }

  class Handler {
    const registry: MasterInstruments
    const queue: InstrumentQueue
    const profilers: ProfilerSlots
    const env: World
    var loaded: map<string, ClassInfo>
    /** The bytecode of a retransformation in progress. */
    var pending: Option<Bytecode>
    /** What the JVM runs: the probes in the bytecode last installed per class. */
    var installed: Installed

    /** Everything above as one value. */
    ghost var st: State
    /** Every line request so far kept away from the lines of the live ones. */
    ghost var distinct: bool

    /** The objects the handler is made of. */
    ghost var repr: set<object>

    /** The value describes the objects. */
    ghost predicate Linked()
      reads this`st, this`pending, this`loaded, this`installed, this`repr, repr - {this}
    {
      && pending == None
      && this !in repr && env !in repr && {registry, queue, profilers} <= repr
      && (forall c :: c in loaded ==> loaded[c] in repr)
      && st.registry == registry.entries && st.nextId == registry.nextId
      && st.queue == queue.items && st.slots == profilers.slots && st.installed == installed
      && (forall c :: c in st.methods || c in st.lines ==> c in loaded)
      && (forall c :: c in loaded ==>
          c in st.methods && c in st.lines && Describes(loaded[c], c, st.methods[c], st.lines[c]))
    }

    ghost predicate Valid()
      reads this, repr
    {
      Linked() && Inv(st, distinct, None)
    }

    constructor (env: World)
      ensures Valid() && fresh(repr) && distinct && st == State(map[], 1, [], map[], map[], [], map[])
      ensures this.env == env
    {
      this.env := env;
      registry := new MasterInstruments();
      queue := new InstrumentQueue();
      profilers := new ProfilerSlots();
      loaded, pending, installed := map[], None, map[];
      st, distinct := State(map[], 1, [], map[], map[], [], map[]), true;
      repr := {registry, queue, profilers};
      new;
      hide Linked, Inv;
      EmptyInv();
      Close();
    }

    lemma {:induction false} EnvApart()
      requires Linked()
      ensures env !in repr
    {
    }

    lemma {:induction false} Open()
      requires Valid()
      ensures Linked() && Inv(st, distinct, None)
    {
    }

    lemma {:induction false} Close()
      requires Linked() && Inv(st, distinct, None)
      ensures Valid()
    {
    }

    ghost method Remember(apart: bool)
      requires Linked()
      modifies this`distinct
      ensures Linked() && distinct == (old(distinct) && apart)
    {
      distinct := distinct && apart;
    }

    // ----- single changes, each to one part -----

    method MiInsert(e: Entry) returns (id: Id)
      requires Linked() && st.nextId > 0
      modifies repr - {this}, env, this`st, this`pending, this`installed
      ensures Linked()
      ensures id == 0 ==> st == old(st)
      ensures id != 0 ==>
              id == old(st).nextId && st == old(st).(registry := old(st).registry[id := e], nextId := id + 1)
      ensures Went(old(env.log), env.log, id != 0)
    {
      id := registry.Insert(e, env);
      st := st.(registry := registry.entries, nextId := registry.nextId);
    }

    method MiRemove(id: Id)
      requires Linked()
      modifies repr - {this}, this`st, this`pending, this`installed
      ensures Linked() && st == old(st).(registry := old(st).registry - {id})
    {
      registry.Remove(id);
      st := st.(registry := registry.entries);
    }

    method SlotCreate(id: Id) returns (slot: int)
      requires Linked()
      modifies repr - {this}, env, this`st, this`pending, this`installed
      ensures Linked() && st == old(st).(slots := st.slots)
      ensures if slot < 0 then st == old(st) else Created(old(st).slots, st.slots, slot, id)
      ensures Went(old(env.log), env.log, slot >= 0)
    {
      slot := profilers.Create(id, env);
      st := st.(slots := profilers.slots);
    }

    method SlotRemove(slot: int)
      requires Linked()
      modifies repr - {this}, this`st, this`pending, this`installed
      ensures Linked() && st == old(st).(slots := Freed(old(st).slots, slot))
    {
      profilers.Remove(slot);
      st := st.(slots := profilers.slots);
    }

    method QueueAppend(it: Item) returns (r: Queued)
      requires Linked()
      modifies repr - {this}, env, this`st, this`pending, this`installed
      ensures Linked() && st == (if r == NotAdded then old(st) else old(st).(queue := old(st).queue + [it]))
      ensures Went(old(env.log), env.log, r == Complete)
    {
      r := queue.Append(it, env);
      st := st.(queue := queue.items);
    }

    method QueueRemove(p: nat)
      requires Linked() && p < |st.queue|
      modifies repr - {this}, this`st, this`pending, this`installed
      ensures Linked() && st == old(st).(queue := Without(old(st).queue, p))
    {
      queue.RemoveAt(p);
      st := st.(queue := queue.items);
    }

    method EntryOf(id: Id) returns (r: Option<Entry>)
      requires Linked()
      ensures Linked()
      ensures r == if id in st.registry then Some(st.registry[id]) else None
    {
      r := if id in registry.entries then Some(registry.entries[id]) else None;
    }

    method FindMethod(cls: string, sig: string) returns (r: Option<Id>)
      requires Linked()
      ensures Linked()
      ensures r.Some? ==>
              MethodAt(st.registry, r.value) && st.registry[r.value].cls == cls && st.registry[r.value].sig == sig
      ensures r.None? <==> NewMethod(st.registry, cls, sig)
    {
      r := registry.FindMethod(cls, sig);
    }

    method IsLoaded(cls: string) returns (found: bool)
      requires Linked()
      ensures Linked()
      ensures found == (cls in st.methods)
    {
      found := cls in loaded;
    }

    method FindQueuedFor(cls: string) returns (p: int, it: Option<Item>)
      requires Linked()
      ensures Linked()
      ensures p < 0 ==> forall x :: x in st.queue ==> x.cls != cls
      ensures p >= 0 ==> p < |st.queue| && it == Some(st.queue[p]) && st.queue[p].cls == cls
    {
      p := queue.FindByClass(cls);
      it := if p >= 0 then Some(queue.items[p]) else None;
    }

    method FindQueued(id: Id) returns (p: int, it: Option<Item>)
      requires Linked()
      ensures Linked()
      ensures p < 0 ==> forall x :: x in st.queue ==> x.id != id
      ensures p >= 0 ==> p < |st.queue| && it == Some(st.queue[p]) && st.queue[p].id == id
    {
      p := queue.FindById(id);
      it := if p >= 0 then Some(queue.items[p]) else None;
    }

    method QueueRemoveLast()
      requires Linked() && st.queue != []
      modifies repr - {this}, this`st, this`pending, this`installed
      ensures Linked() && st == old(st).(queue := Without(old(st).queue, |old(st).queue| - 1))
    {
      QueueRemove(|queue.items| - 1);
    }

    method MarkMethod(id: Id)
      requires Linked() && MethodAt(st.registry, id)
      modifies repr - {this}, this`st, this`pending, this`installed
      ensures Linked() && st == old(st).(registry := old(st).registry[id := old(st).registry[id].(deferred := false)])
    {
      registry.MarkMethodApplied(id);
      st := st.(registry := registry.entries);
    }

    method MarkSide(id: Id, side: Side)
      requires Linked() && LineAt(st.registry, id)
      modifies repr - {this}, this`st, this`pending, this`installed
      ensures Linked() && st == old(st).(registry := old(st).registry[id := old(st).registry[id].Applied(side)])
    {
      registry.MarkLineApplied(id, side);
      st := st.(registry := registry.entries);
    }

    method AddMethodRec(cls: string, r: MethodRec) returns (ok: bool)
      requires Linked() && cls in st.methods
      modifies repr - {this}, env, this`st, this`pending, this`installed
      ensures Linked() && st == (if ok then old(st).(methods := old(st).methods[cls := old(st).methods[cls] + [r]])
                                 else old(st))
      ensures Went(old(env.log), env.log, ok)
    {
      ok := loaded[cls].AddMethod(r, env);
      if ok {
        st := st.(methods := st.methods[cls := loaded[cls].methods]);
      }
    }

    method AddLineRec(cls: string, r: LineRec) returns (ok: bool)
      requires Linked() && cls in st.methods
      modifies repr - {this}, env, this`st, this`pending, this`installed
      ensures Linked() && st == (if ok then old(st).(lines := old(st).lines[cls := old(st).lines[cls] + [r]])
                                 else old(st))
      ensures Went(old(env.log), env.log, ok)
    {
      ok := loaded[cls].AddLine(r, env);
      if ok {
        st := st.(lines := st.lines[cls := loaded[cls].lines]);
      }
    }

    method RemoveMethodRec(cls: string, sig: string) returns (slot: int)
      requires Linked() && cls in st.methods
      modifies repr - {this}, this`st, this`pending, this`installed
      ensures Linked() && st == old(st).(methods := old(st).methods[cls := DropSig(old(st).methods[cls], sig)])
      ensures var ms := old(st).methods[cls]; slot == if FindSig(ms, sig) < |ms| then ms[FindSig(ms, sig)].slot else -1
    {
      slot := loaded[cls].RemoveMethod(sig);
      st := st.(methods := st.methods[cls := loaded[cls].methods]);
    }

    method RemoveLineRec(cls: string, line: int) returns (slot: int)
      requires Linked() && cls in st.methods
      modifies repr - {this}, this`st, this`pending, this`installed
      ensures Linked() && st == old(st).(lines := old(st).lines[cls := DropLine(old(st).lines[cls], line)])
      ensures var ls := old(st).lines[cls];
              slot == if FindLine(ls, line) < |ls| then ls[FindLine(ls, line)].slot else -1
    {
      slot := loaded[cls].RemoveLine(line);
      st := st.(lines := st.lines[cls := loaded[cls].lines]);
    }

    /** `do_instrumentation`: the bytecode transformer, asked for every record of the class. */
    method DoInstrumentation(cls: string) returns (bc: Option<Bytecode>)
      requires Linked() && cls in st.methods
      modifies env
      ensures Linked() && env.log == old(env.log) + [Call(Transformation(cls), bc.Some?)]
      ensures bc.Some? ==> bc.value == Bytecode(cls, Wanted(st.methods[cls], st.lines[cls]))
    {
      var ok := env.Ask(Transformation(cls));
      bc := if ok then Some(Bytecode(cls, Wanted(loaded[cls].methods, loaded[cls].lines))) else None;
    }

    /** `retransform_pending`: the JVM asks for the pending bytecode while it
        retransforms the class, and installs it if it succeeds. */
    method Retransform(bc: Bytecode) returns (ok: bool)
      requires Linked()
      modifies repr - {this}, env, this`st, this`pending, this`installed
      ensures Linked()
      ensures st == if ok then old(st).(installed := old(st).installed[bc.cls := bc.probes]) else old(st)
      ensures env.log == old(env.log) + [Call(Installation(bc.cls), ok)]
    {
      pending := Some(bc);
      ok := env.Ask(Installation(bc.cls));
      if ok {
        installed := installed[pending.value.cls := pending.value.probes];
        st := st.(installed := installed);
      }
      pending := None;
    }

    // ----- making method instruments -----

    /** `perform_instrumentation` up to the marking. */
    method PerformInstrumentation(cls: string) returns (ok: bool)
      requires Linked() && cls in st.methods && st.methods.Keys == st.lines.Keys
      modifies repr - {this}, env, this`st, this`pending, this`installed
      ensures Linked()
      ensures st == if ok
                    then old(st).(installed := Reinstalled(old(st).installed, old(st).methods, old(st).lines, cls))
                    else old(st)
      ensures Went(old(env.log), env.log, ok)
      ensures TakenSince(old(env.log), env.log) == if ok then {cls} else {}
    {
      hide Linked, Wanted;
      var bc := DoInstrumentation(cls);
      AskedForClass(old(env.log), cls, bc.Some?, false);
      if bc.None? {
        assert env.log == old(env.log) + AskFor(cls, false, false);
        return false;
      }
      ok := Retransform(bc.value);
      AskedForClass(old(env.log), cls, true, ok);
      assert env.log == old(env.log) + AskFor(cls, true, ok);
    }

    /** `instrument_now`: on failure the entry and the slot are gone again. */
    method InstrumentNow(cls: string, id: Id, slot: nat) returns (ok: bool)
      requires Linked() && cls in st.methods && st.methods.Keys == st.lines.Keys && MethodAt(st.registry, id)
      requires FindSig(st.methods[cls], st.registry[id].sig) == |st.methods[cls]|
      modifies repr - {this}, env, this`st, this`pending, this`installed
      ensures Linked()
      ensures !ok ==> st == old(st).(registry := old(st).registry - {id}, slots := Freed(old(st).slots, slot))
      ensures ok ==> NowApplied(old(st), st, cls, id, slot)
      ensures Went(old(env.log), env.log, ok)
    {
      hide Linked, Wanted, DropSig, Freed, FindSig, Went, TakenSince;
      var entry := EntryOf(id);
      var sig := entry.value.sig;
      ok := AddMethodRec(cls, MethodRec(sig, slot, id));
      ghost var mid := env.log;
      if !ok {
        SlotRemove(slot);
        MiRemove(id);
        return;
      }
      ok := PerformInstrumentation(cls);
      WentOn(old(env.log), mid, env.log, true, ok);
      if !ok {
        AddThenDropSig(old(st).methods, cls, MethodRec(sig, slot, id));
        var removed := RemoveMethodRec(cls, sig);
        MiRemove(id);
        SlotRemove(slot);
        return;
      }
      MarkMethod(id);
    }

    /** `instrument_later`: an item whose strings could not be copied is taken off again. */
    method InstrumentLater(cls: string, sig: string, id: Id, slot: nat) returns (status: Status)
      requires Linked()
      modifies repr - {this}, env, this`st, this`pending, this`installed
      ensures Linked() && (status == Error || status == Deferred)
      ensures status == Error ==> st == old(st).(registry := old(st).registry - {id})
      ensures status == Deferred ==> st == old(st).(queue := old(st).queue + [MethodItem(id, slot, cls, sig)])
      ensures Went(old(env.log), env.log, status != Error)
    {
      hide *;
      var r := QueueAppend(MethodItem(id, slot, cls, sig));
      if r != Complete {
        if r == Incomplete {
          QueueRemoveLast();
          WithoutLast(old(st).queue, MethodItem(id, slot, cls, sig));
        }
        MiRemove(id);
        return Error;
      }
      status := Deferred;
    }

    /** Queued when the class is not loaded, instrumented at once when it is. */
    method PlaceMethod(cls: string, sig: string, id: Id, slot: nat) returns (status: Status)
      requires Linked() && st.methods.Keys == st.lines.Keys && id in st.registry &&
               st.registry[id] == MethodEntry(cls, sig, true)
      requires cls in st.methods ==> FindSig(st.methods[cls], sig) == |st.methods[cls]|
      modifies repr - {this}, env, this`st, this`pending, this`installed
      ensures Linked() && Placed(old(st), st, cls, sig, id, slot, status)
      ensures Went(old(env.log), env.log, status != Error)
    {
      hide Linked, Freed, FindSig, NowApplied;
      var isLoaded := IsLoaded(cls);
      if !isLoaded {
        status := InstrumentLater(cls, sig, id, slot);
        if status == Error {
          SlotRemove(slot);
        }
        return;
      }
      var ok := InstrumentNow(cls, id, slot);
      status := if ok then Ok else Error;
    }

    /** `ih_instrument_method` */
    method InstrumentMethod(cls: string, sig: string) returns (status: Status, id: Id, ghost slot: int)
      requires Valid()
      modifies repr - {this}, env, this`st, this`pending, this`installed
      ensures Valid()
      ensures MethodOutcome(old(st), st, cls, sig, status, id, slot)
      ensures Successor(old(st), st)
      ensures Went(old(env.log), env.log, status != Error)
    {
      hide Valid, Linked, Inv, Wanted, Created, Freed, FindSig, NewMethod, SameActive, Successor, MethodOutcome, Placed;
      Open();
      ghost var was := st;
      SameKeys(st, distinct, None);
      slot := -1;
      var found := FindMethod(cls, sig);
      if found.Some? {
        MethodDouble(st, cls, sig, found.value, slot, distinct);
        WentNowhere(env.log);
        Close();
        return Double, found.value, slot;
      }
      id := MiInsert(MethodEntry(cls, sig, true));
      ghost var inserted := env.log;
      if id == 0 {
        MethodError(was, st, cls, sig, id, slot, distinct);
        Close();
        return Error, id, slot;
      }
      var created := SlotCreate(id);
      slot := created;
      ghost var asked := env.log;
      WentOn(old(env.log), inserted, asked, true, created >= 0);
      if created < 0 {
        MiRemove(id);
        MethodError(was, st, cls, sig, id, slot, distinct);
        Close();
        return Error, id, slot;
      }
      ghost var mid := st;
      CreatedIndex(was.slots, mid.slots, slot, id);
      NewMethodNoRecord(was, cls, sig, distinct);
      status := PlaceMethod(cls, sig, id, created);
      WentOn(old(env.log), asked, env.log, true, status != Error);
      MethodPlaced(was, mid, st, cls, sig, slot, status, distinct);
      Close();
    }

    // ----- making line instruments -----

    /** `populate_class_info_line`: both records or, as far as line numbers tell, neither. */
    method PopulateLine(e: Entry, id: Id, slot: nat) returns (ok: bool)
      requires Linked() && e.LineEntry? && e.cls in st.methods && e.exitCls in st.methods &&
               st.methods.Keys == st.lines.Keys
      modifies repr - {this}, env, this`st, this`pending, this`installed
      ensures Linked() && Populated(old(st), st, e, id, slot, ok)
      ensures Went(old(env.log), env.log, ok)
    {
      hide Linked, DropLine, Populated;
      ghost var was := st;
      ok := AddLineRec(e.cls, LineRec(e.line, slot, id, Enter));
      if !ok {
        NotMade(was, e, id, slot);
        return;
      }
      ghost var first, mid := st.lines, env.log;
      ok := AddLineRec(e.exitCls, LineRec(e.exitLine, slot, id, Exit));
      WentOn(old(env.log), mid, env.log, true, ok);
      if !ok {
        var removed := RemoveLineRec(e.cls, e.line);
      }
      RecordsMade(was, st, e, id, slot, first, ok);
    }

    /** `perform_instrumentation_line` */
    method PerformLine(e: Entry, id: Id, slot: nat) returns (ok: bool)
      requires Linked() && e.LineEntry? && e.cls in st.methods && e.exitCls in st.methods &&
               st.methods.Keys == st.lines.Keys
      requires id in st.registry && st.registry[id] == e
      modifies repr - {this}, env, this`st, this`pending, this`installed
      ensures Linked() && Performed(old(st), st, e, id, slot, ok)
      ensures Went(old(env.log), env.log, ok)
    {
      hide Linked, DropLine, Freed, Wanted, Performed, Reinstalled;
      ghost var was := st;
      ok := PerformInstrumentation(e.cls);
      ghost var once, mid := st.installed, env.log;
      if ok && e.exitCls != e.cls {
        ok := PerformInstrumentation(e.exitCls);
        WentOn(old(env.log), mid, env.log, true, ok);
      }
      if ok {
        ghost var twice := st.installed;
        MarkSide(id, Enter);
        MarkSide(id, Exit);
        PerformedBoth(was, st, e, id, slot, once, twice);
        return;
      }
      var enterSlot := RemoveLineRec(e.cls, e.line);
      var exitSlot := RemoveLineRec(e.exitCls, e.exitLine);
      SlotRemove(slot);
      MiRemove(id);
      PerformedNot(was, st, e, id, slot);
    }

    /** Both records, both classes, both marks; on failure the entry and the slot are gone again. */
    method InstrumentLineNow(e: Entry, id: Id, slot: nat) returns (ok: bool)
      requires Linked() && e.LineEntry? && e.cls in st.methods && e.exitCls in st.methods &&
               st.methods.Keys == st.lines.Keys
      requires id in st.registry && st.registry[id] == e
      requires NoneOf(st.lines, id)
      modifies repr - {this}, env, this`st, this`pending, this`installed
      ensures Linked() && LineNow(old(st), st, e, id, slot, ok)
      ensures Went(old(env.log), env.log, ok)
    {
      hide Linked, Populated, Performed, LineNow, Freed;
      ghost var was := st;
      ok := PopulateLine(e, id, slot);
      ghost var mid, made := st, env.log;
      PopulatedLeaves(was, mid, e, id, slot, ok);
      if !ok {
        SlotRemove(slot);
        MiRemove(id);
        NotPopulated(was, mid, st, e, id, slot);
        return;
      }
      ok := PerformLine(e, id, slot);
      WentOn(old(env.log), made, env.log, true, ok);
      PopulatedThenPerformed(was, mid, st, e, id, slot, ok);
    }

    /** `remove_queued_instr_by_id` */
    method RemoveQueuedById(id: Id) returns (slot: int)
      requires Linked() && OneTaskEach(st.queue) && OneSlotEach(st.queue)
      modifies repr - {this}, this`st, this`pending, this`installed
      ensures Linked() && Unqueued(old(st), st, id, slot)
    {
      hide Linked, Drop, OneTaskEach, OneSlotEach;
      ghost var was := st;
      var p, first := FindQueued(id);
      if p < 0 {
        NoItems(st.queue, id);
        return -1;
      }
      slot := first.value.slot;
      QueueRemove(p);
      FirstItemGone(was.queue, p, id);
      var next, second := FindQueued(id);
      if first.value.MethodItem? {
        assert next < 0;
        return;
      }
      if next < 0 {
        return;
      }
      assert second.value.slot == slot && second.value.LineItem?;
      QueueRemove(next);
      assert forall it :: it in st.queue ==> it.id != id;
    }

    /** One side of a new line: an item when its class is not loaded, else the mark. */
    method LaterSide(e: Entry, id: Id, slot: nat, side: Side, waits: bool) returns (r: Queued, ghost items: seq<Item>)
      requires Linked() && e.LineEntry? && LineAt(st.registry, id)
      modifies repr - {this}, env, this`st, this`pending, this`installed
      ensures Linked() && (!waits ==> r == Complete)
      ensures items == if waits && r != NotAdded then [LineItem(id, slot, e.ClassOf(side), e.LineOf(side), side)]
                       else []
      ensures st == old(st).(queue := old(st).queue + items,
                             registry := if waits then old(st).registry
                                         else old(st).registry[id := old(st).registry[id].Applied(side)])
      ensures Went(old(env.log), env.log, r == Complete)
    {
      hide Linked;
      if !waits {
        MarkSide(id, side);
        WentNowhere(env.log);
        assert old(st).queue + [] == old(st).queue;
        return Complete, [];
      }
      var item := LineItem(id, slot, e.ClassOf(side), e.LineOf(side), side);
      r := QueueAppend(item);
      items := if r != NotAdded then [item] else [];
      assert old(st).queue + [] == old(st).queue;
    }

    /** `instrument_later_line` */
    method InstrumentLaterLine(e: Entry, id: Id, slot: nat, enterLoaded: bool, exitLoaded: bool) returns (ok: bool)
      requires Linked() && e.LineEntry? && e.enterDeferred && e.exitDeferred && id in st.registry &&
               st.registry[id] == e
      requires OneTaskEach(st.queue) && OneSlotEach(st.queue) && forall it :: it in st.queue ==> it.id != id
      modifies repr - {this}, env, this`st, this`pending, this`installed
      ensures Linked() && LaterLine(old(st), st, e, id, slot, enterLoaded, exitLoaded, ok)
      ensures Went(old(env.log), env.log, ok)
    {
      hide Linked, Drop, OneTaskEach, OneSlotEach, LaterLine;
      EnvApart();
      ghost var was := st;
      var r, enters := LaterSide(e, id, slot, Enter, !enterLoaded);
      ghost var reg, mid := st.registry, env.log;
      ghost var exits := [];
      if r == Complete {
        r, exits := LaterSide(e, id, slot, Exit, !exitLoaded && e.cls != e.exitCls);
        WentOn(old(env.log), mid, env.log, true, r == Complete);
      }
      assert st.queue == was.queue + (enters + exits);
      ok := r == Complete;
      if ok {
        LaterLineDone(was, st, e, id, slot, enterLoaded, exitLoaded, reg);
      } else {
        GiveUpLater(e, id, slot, enters + exits, enterLoaded, exitLoaded, was);
      }
    }

    /** The items made so far and the entry go again. */
    method GiveUpLater(e: Entry, id: Id, slot: nat, ghost added: seq<Item>, enterLoaded: bool, exitLoaded: bool,
                       ghost was: State)
      requires Linked() && e.LineEntry? && AddedSoFar(e, id, slot, added)
      requires OneTaskEach(was.queue) && OneSlotEach(was.queue) && forall it :: it in was.queue ==> it.id != id
      requires st == was.(registry := st.registry, queue := was.queue + added)
      requires st.registry - {id} == was.registry - {id}
      modifies repr - {this}, this`st, this`pending, this`installed
      ensures Linked() && LaterLine(was, st, e, id, slot, enterLoaded, exitLoaded, false)
    {
      hide Linked, Drop, OneTaskEach, OneSlotEach, LaterLine, AddedSoFar;
      ghost var mid := st;
      AddedQueueUnique(was.queue, e, id, slot, added);
      var ignored := RemoveQueuedById(id);
      MiRemove(id);
      LaterLineFailed(was, mid, st, e, id, slot, added, enterLoaded, exitLoaded);
    }

    /** Queued when a class is not loaded, instrumented at once when both are. */
    method PlaceLine(e: Entry, id: Id, slot: nat) returns (status: Status)
      requires Linked() && st.methods.Keys == st.lines.Keys && e.LineEntry? && e.enterDeferred && e.exitDeferred
      requires id in st.registry && st.registry[id] == e
      requires OneTaskEach(st.queue) && OneSlotEach(st.queue) && forall it :: it in st.queue ==> it.id != id
      requires forall c, r {:trigger r in st.lines[c]} :: c in st.lines && r in st.lines[c] ==> r.id != id
      modifies repr - {this}, env, this`st, this`pending, this`installed
      ensures Linked() && LinePlaced(old(st), st, e, id, slot, status)
      ensures Went(old(env.log), env.log, status != Error)
    {
      hide Linked, LineNow, Freed, OneTaskEach, OneSlotEach, LaterEntry, LaterItems, LineUndone;
      ghost var was := st;
      var enterLoaded := IsLoaded(e.cls);
      var exitLoaded := IsLoaded(e.exitCls);
      if !enterLoaded || !exitLoaded {
        var queued := InstrumentLaterLine(e, id, slot, enterLoaded, exitLoaded);
        if !queued {
          SlotRemove(slot);
        }
        return if queued then Deferred else Error;
      }
      var ok := InstrumentLineNow(e, id, slot);
      NotNow(was, st, e, id, slot, ok);
      status := if ok then Ok else Error;
    }

    /** `ih_instrument_line` */
    method InstrumentLine(cls: string, exitCls: string, line: int, exitLine: int)
      returns (status: Status, id: Id, ghost slot: int)
      requires Valid()
      modifies repr - {this}, env, this`st, this`pending, this`installed, this`distinct
      ensures Valid()
      ensures distinct ==
              (old(distinct) && Apart(old(st).registry, LineEntry(cls, exitCls, line, exitLine, true, true)))
      ensures old(st).methods.Keys == old(st).lines.Keys
      ensures LineOutcome(old(st), st, LineEntry(cls, exitCls, line, exitLine, true, true), status, id, slot)
      ensures Successor(old(st), st)
      ensures Went(old(env.log), env.log, status != Error)
    {
      hide Valid, Linked, Inv, Created, Freed, SameActive, Successor, LineOutcome, LinePlaced, OneTaskEach,
           OneSlotEach, Apart;
      Open();
      ghost var was, before := st, distinct;
      var e := LineEntry(cls, exitCls, line, exitLine, true, true);
      SameKeys(st, distinct, None);
      NumberIsNew(st, distinct, None);
      QueueUnique(st, distinct, None);
      Remember(Apart(st.registry, e));
      slot := -1;
      id := MiInsert(e);
      ghost var inserted := env.log;
      if id == 0 {
        LineError(was, st, e, id, slot, before);
        Close();
        return Error, id, slot;
      }
      var created := SlotCreate(id);
      slot := created;
      ghost var asked := env.log;
      WentOn(old(env.log), inserted, asked, true, created >= 0);
      if created < 0 {
        MiRemove(id);
        LineError(was, st, e, id, slot, before);
        Close();
        return Error, id, slot;
      }
      ghost var mid := st;
      CreatedIndex(was.slots, mid.slots, slot, id);
      status := PlaceLine(e, id, created);
      WentOn(old(env.log), asked, env.log, true, status != Error);
      LineRequestKeeps(was, mid, st, e, slot, status, before);
      Close();
    }

    // ----- deinstrumenting -----

    /** A deferred instrument only has queue items, an entry and a slot. */
    method DeinstrumentDeferred(id: Id)
      requires Valid() && StillWaits(st.registry, id)
      modifies repr - {this}, this`st, this`pending, this`installed
      ensures Valid() && Retired(old(st), st, {id}, distinct) && Successor(old(st), st)
      ensures st.nextId == old(st).nextId && st.installed == old(st).installed
    {
      hide Valid, Linked, Inv, Unqueued, Freed, Retired, Successor, OneTaskEach, OneSlotEach;
      Open();
      ghost var was := st;
      QueueUnique(st, distinct, None);
      var slot := RemoveQueuedById(id);
      ghost var mid := st;
      if slot >= 0 {
        SlotRemove(slot);
      }
      MiRemove(id);
      DeferredTaken(was, mid, st, id, slot, distinct);
      Close();
    }

    /** Drops the record, reinstalls the class if it can, and forgets the instrument either way. */
    method TakeMethod(e: Entry, id: Id) returns (ok: bool, ghost slot: int)
      requires Linked() && e.MethodEntry? && e.cls in st.methods && st.methods.Keys == st.lines.Keys
      requires FindSig(st.methods[e.cls], e.sig) < |st.methods[e.cls]|
      modifies repr - {this}, env, this`st, this`pending, this`installed
      ensures Linked() && e.cls in old(st).methods && e.cls in old(st).lines &&
              MethodTaken(old(st), st, e, id, slot, ok)
      ensures TakenSince(old(env.log), env.log) == if ok then {e.cls} else {}
    {
      hide Linked, Freed, Wanted, DropSig, FindSig;
      EnvApart();
      ghost var was := st;
      var removed := RemoveMethodRec(e.cls, e.sig);
      slot := removed;
      ok := PerformInstrumentation(e.cls);
      ReinstalledOne(was.installed, st.methods, st.lines, e.cls);
      MiRemove(id);
      SlotRemove(removed);
    }

    /** An applied method entry always names a loaded class that holds its record, so the
        error answers for a class or a record not found are never given. */
    method DeinstrumentMethodById(e: Entry, id: Id) returns (ok: bool, ghost made: set<string>, ghost done: set<string>)
      requires Valid() && MethodAt(st.registry, id) && st.registry[id] == e
      modifies repr - {this}, env, this`st, this`pending, this`installed
      ensures Valid() && DeinstrumentOutcome(old(st), st, id, ok, distinct) && Successor(old(st), st)
      ensures BytecodeTaken(old(st), st, id, done) && (distinct ==> ProbesGone(old(st), st, id, done))
      ensures ok <==> Answer(old(st).registry, id, made, done)
      ensures made == MadeSince(old(env.log), env.log) && done == TakenSince(old(env.log), env.log)
    {
      hide Valid, Linked, Inv, MethodTaken, Retired, Successor, FindSig, BytecodeTaken, ProbesGone;
      ghost var was, slot := st, -1;
      Open();
      EnvApart();
      if e.deferred {
        DeinstrumentDeferred(id);
        NothingTaken(was, st, id);
        SinceNothing(env.log);
        ok, made, done := true, {}, {};
      } else {
        AppliedMethodFound(st, id, distinct);
        SameKeys(st, distinct, None);
        ok, slot := TakeMethod(e, id);
        made, done := MadeSince(old(env.log), env.log), if ok then {e.cls} else {};
        MethodTakenRetires(was, st, id, slot, ok, distinct);
        RetiredSucceeds(was, st, {id}, distinct);
        MethodTakenBytecode(was, st, id, slot, ok);
        Close();
      }
      AnsweredProbesGone(was, id, ok, done);
    }

    /** `ProbesGoneIff` for the handler's own state. */
    lemma {:induction false} AnsweredProbesGone(was: State, id: Id, ok: bool, done: set<string>)
      requires Valid() && Inv(was, distinct, None) && BytecodeTaken(was, st, id, done)
      requires DeinstrumentOutcome(was, st, id, ok, distinct)
      ensures distinct ==> ProbesGone(was, st, id, done)
    {
      hide Inv, Linked, Retired, BytecodeTaken, ProbesGone;
      if distinct {
        ProbesGoneIff(was, st, id, done);
      }
    }

    /** Reinstalls one class; only a transformer failure is reported, `accepted` or not by the JVM. */
    method ReinstallClass(cls: string) returns (ok: bool, ghost accepted: bool)
      requires Linked() && cls in st.methods && st.methods.Keys == st.lines.Keys
      modifies repr - {this}, env, this`st, this`pending, this`installed
      ensures Linked() && (accepted ==> ok) && env.log == old(env.log) + AskFor(cls, ok, accepted)
      ensures st == if accepted
                    then old(st).(installed := Reinstalled(old(st).installed, old(st).methods, old(st).lines, cls))
                    else old(st)
    {
      hide Linked, Wanted;
      var bc := DoInstrumentation(cls);
      if bc.None? {
        assert env.log == old(env.log) + AskFor(cls, false, false);
        return false, false;
      }
      var ignored := Retransform(bc.value);
      ok, accepted := true, ignored;
      assert env.log == old(env.log) + AskFor(cls, true, accepted);
    }

    /** Drops two records by line number, reinstalls the classes if it can, and
        forgets the instrument and the slot named by the first of the records. */
    method TakeLine(e: Entry, id: Id)
      returns (ok: bool, ghost slot: int, ghost made: set<string>, ghost done: set<string>)
      requires Linked() && e.LineEntry? && e.cls in st.methods && e.exitCls in st.methods &&
               st.methods.Keys == st.lines.Keys
      modifies repr - {this}, env, this`st, this`pending, this`installed
      ensures Linked() && LineTaken(old(st), st, e, id, slot, done) && (ok <==> {e.cls, e.exitCls} <= made)
      ensures made == MadeSince(old(env.log), env.log) && done == TakenSince(old(env.log), env.log)
    {
      hide Linked, Freed, DropLines, FindLine, LineTaken, ReinstalledAll;
      EnvApart();
      ghost var was := st;
      var removed := DropLineRecs(e);
      slot := removed;
      ghost var dropped := st;
      ok, made, done := ReinstallBoth(e);
      MiRemove(id);
      if removed >= 0 {
        SlotRemove(removed);
      }
      LineTakenSteps(was, dropped, st, e, id, removed, done);
    }

    /** The slot is the one the first dropped record names. */
    method DropLineRecs(e: Entry) returns (slot: int)
      requires Linked() && e.LineEntry? && e.cls in st.lines && e.exitCls in st.lines &&
               st.methods.Keys == st.lines.Keys
      modifies repr - {this}, this`st, this`pending, this`installed
      ensures Linked() && st == old(st).(lines := DropLines(old(st).lines, e))
      ensures var ls := old(st).lines[e.cls];
              slot == if FindLine(ls, e.line) < |ls| then ls[FindLine(ls, e.line)].slot else -1
    {
      hide Linked, DropLine, FindLine;
      slot := RemoveLineRec(e.cls, e.line);
      var ignored := RemoveLineRec(e.exitCls, e.exitLine);
    }

    /** The classes of a line, the second unless it is the first or the transformer has failed. */
    method ReinstallBoth(e: Entry) returns (ok: bool, ghost made: set<string>, ghost done: set<string>)
      requires Linked() && e.LineEntry? && e.cls in st.methods && e.exitCls in st.methods &&
               st.methods.Keys == st.lines.Keys
      modifies repr - {this}, env, this`st, this`pending, this`installed
      ensures Linked() && done <= {e.cls, e.exitCls} && (ok <==> {e.cls, e.exitCls} <= made)
      ensures made == MadeSince(old(env.log), env.log) && done == TakenSince(old(env.log), env.log)
      ensures done <= old(st).methods.Keys && done <= old(st).lines.Keys
      ensures st == old(st).(installed := ReinstalledAll(old(st).installed, old(st).methods, old(st).lines, done))
    {
      hide Linked, Wanted, ReinstalledAll;
      ghost var was, first, second := st, false, false;
      ok, first := ReinstallClass(e.cls);
      AskedForClass(old(env.log), e.cls, ok, first);
      made := if ok then {e.cls} else {};
      if ok && e.exitCls != e.cls {
        ghost var mid := env.log;
        ok, second := ReinstallClass(e.exitCls);
        AskedForMore(old(env.log), mid, e.exitCls, ok, second);
        made := made + if ok then {e.exitCls} else {};
      }
      done := (if first then {e.cls} else {}) + if second then {e.exitCls} else {};
      ReinstalledTwo(was.installed, was.methods, was.lines, e.cls, first, e.exitCls, second);
    }

    method DeinstrumentLineById(e: Entry, id: Id) returns (ok: bool, ghost made: set<string>, ghost done: set<string>)
      requires Valid() && LineAt(st.registry, id) && st.registry[id] == e
      modifies repr - {this}, env, this`st, this`pending, this`installed
      ensures Valid() && DeinstrumentOutcome(old(st), st, id, ok, distinct) && Successor(old(st), st)
      ensures BytecodeTaken(old(st), st, id, done) && (distinct ==> ProbesGone(old(st), st, id, done))
      ensures ok <==> Answer(old(st).registry, id, made, done)
      ensures made == MadeSince(old(env.log), env.log) && done == TakenSince(old(env.log), env.log)
    {
      hide Valid, Linked, Inv, LineTaken, Retired, Successor, BytecodeTaken, ProbesGone;
      ghost var was, slot := st, -1;
      Open();
      EnvApart();
      if !e.Ready() {
        DeinstrumentDeferred(id);
        NothingTaken(was, st, id);
        SinceNothing(env.log);
        ok, made, done := true, {}, {};
      } else {
        ReadyLineFound(st, id, distinct);
        ok, slot, made, done := TakeLine(e, id);
        LineTakenRetires(was, st, id, slot, done, distinct);
        RetiredSucceeds(was, st, {id}, distinct);
        LineTakenBytecode(was, st, id, slot, done);
        Close();
      }
      AnsweredProbesGone(was, id, ok, done);
    }

    /** `ih_deinstrument_by_id`; `done` are the classes the JVM took new bytecode
        for, `made` those the transformer made it for. */
    method DeinstrumentById(id: Id) returns (ok: bool, ghost made: set<string>, ghost done: set<string>)
      requires Valid()
      modifies repr - {this}, env, this`st, this`pending, this`installed
      ensures Valid() && DeinstrumentOutcome(old(st), st, id, ok, distinct) && Successor(old(st), st)
      ensures BytecodeTaken(old(st), st, id, done) && (distinct ==> ProbesGone(old(st), st, id, done))
      ensures ok <==> Answer(old(st).registry, id, made, done)
      ensures made == MadeSince(old(env.log), env.log) && done == TakenSince(old(env.log), env.log)
    {
      hide Valid, Linked, Inv, Retired, Successor, BytecodeTaken;
      Open();
      var e := EntryOf(id);
      Close();
      if e.None? {
        SameSucceeds(st);
        NothingTaken(st, st, id);
        SinceNothing(env.log);
        return false, {}, {};
      }
      if e.value.MethodEntry? {
        ok, made, done := DeinstrumentMethodById(e.value, id);
      } else {
        ok, made, done := DeinstrumentLineById(e.value, id);
      }
    }

    /** `ih_deinstrument_method`: `id` is the instrument of that name, if there is one. */
    method DeinstrumentMethod(cls: string, sig: string)
      returns (ok: bool, ghost id: Id, ghost made: set<string>, ghost done: set<string>)
      requires Valid()
      modifies repr - {this}, env, this`st, this`pending, this`installed
      ensures Valid() && DeinstrumentOutcome(old(st), st, id, ok, distinct) && Successor(old(st), st)
      ensures BytecodeTaken(old(st), st, id, done) && (distinct ==> ProbesGone(old(st), st, id, done))
      ensures ok <==> Answer(old(st).registry, id, made, done)
      ensures made == MadeSince(old(env.log), env.log) && done == TakenSince(old(env.log), env.log)
      ensures if NewMethod(old(st).registry, cls, sig) then !ok && st == old(st)
              else MethodAt(old(st).registry, id) && old(st).registry[id].cls == cls && old(st).registry[id].sig == sig
    {
      hide Valid, Linked, Inv, Retired, Successor, NewMethod, BytecodeTaken;
      Open();
      var found := FindMethod(cls, sig);
      if found.None? {
        SameSucceeds(st);
        id := st.nextId;
        NumberIsNew(st, distinct, None);
        NothingTaken(st, st, id);
        SinceNothing(env.log);
        Close();
        return false, id, {}, {};
      }
      id := found.value;
      var e := EntryOf(found.value);
      Close();
      ok, made, done := DeinstrumentMethodById(e.value, found.value);
    }

    // ----- a class is loaded -----

    method DrainQueuedMethod(p: nat, it: Item)
      requires Linked() && Inv(st, distinct, Some(it.cls)) && p < |st.queue| && st.queue[p] == it && it.MethodItem? &&
               it.cls in st.methods
      modifies repr - {this}, env, this`st, this`pending, this`installed
      ensures Linked() && Inv(st, distinct, Some(it.cls)) && DrainStep(old(st), st, p, it.cls)
      ensures NothingLost(old(st), st, old(env.log), env.log)
    {
      hide Linked, Inv, NowApplied, Freed, DrainStep, FindSig;
      ghost var was := st;
      EnvApart();
      SameKeys(st, distinct, Some(it.cls));
      QueuedMethod(st, p, distinct, Some(it.cls));
      var ok := InstrumentNow(it.cls, it.id, it.slot);
      ghost var mid := st;
      NowKeeps(was, mid, it.cls, it.id, it.slot, ok, old(env.log), env.log);
      NowLeavesQueue(was, mid, it.cls, it.id, it.slot, ok);
      QueueRemove(p);
      DrainMethod(was, mid, st, p, ok, distinct, it.cls);
    }

    /** `do_deferred_line_instrumentation`. The entry and both classes are always found. */
    /** The line, ready in both its classes, is applied. */
    method DrainReadyLine(p: nat, it: Item, e: Entry, ghost was: State)
      requires Linked() && Inv(was, distinct, Some(it.cls)) && p < |was.queue| && was.queue[p] == it && it.LineItem? &&
               it.cls in was.methods && LineAt(was.registry, it.id)
      requires e == was.registry[it.id].Applied(it.side) && e.Ready()
      requires st == was.(registry := was.registry[it.id := e])
      modifies repr - {this}, env, this`st, this`pending, this`installed
      ensures Linked() && Inv(st, distinct, Some(it.cls)) && DrainStep(was, st, p, it.cls)
      ensures NothingLost(was, st, old(env.log), env.log)
    {
      hide Linked, Inv, LineNow, DrainStep, Refused, NoneOf;
      ghost var mid := st;
      EnvApart();
      QueuedLine(was, p, distinct, it.cls);
      var ok := InstrumentLineNow(e, it.id, it.slot);
      ghost var end := st;
      LineNowKeeps(mid, end, e, it.id, it.slot, ok, old(env.log), env.log);
      LineNowLeavesQueue(mid, end, e, it.id, it.slot, ok);
      QueueRemove(p);
      DrainLine(was, mid, end, p, ok, distinct, it.cls);
    }

    method DrainQueuedLine(p: nat, it: Item)
      requires Linked() && Inv(st, distinct, Some(it.cls)) && p < |st.queue| && st.queue[p] == it && it.LineItem? &&
               it.cls in st.methods
      modifies repr - {this}, env, this`st, this`pending, this`installed
      ensures Linked() && Inv(st, distinct, Some(it.cls)) && DrainStep(old(st), st, p, it.cls)
      ensures NothingLost(old(st), st, old(env.log), env.log)
    {
      hide Linked, Inv, LineNow, DrainStep, Refused;
      ghost var was := st;
      EnvApart();
      QueuedLine(st, p, distinct, it.cls);
      MarkSide(it.id, it.side);
      var entry := EntryOf(it.id);
      if entry.value.Ready() {
        DrainReadyLine(p, it, entry.value, was);
      } else {
        QueueRemove(p);
        DrainMark(was, st, p, distinct, it.cls);
      }
    }

    /** `do_deferred_instrumentations` */
    method Drain(name: string)
      requires Linked() && Inv(st, distinct, Some(name)) && name in st.methods
      modifies repr - {this}, env, this`st, this`pending, this`installed
      ensures Linked() && Inv(st, distinct, Some(name)) && Draining(old(st), st, name)
      ensures forall it :: it in st.queue ==> it.cls != name
      ensures NothingLost(old(st), st, old(env.log), env.log)
    {
      hide Linked, Inv, DrainStep;
      NothingLostYet(st, env.log);
      DrainStarts(st, name);
      hide Draining;
      ghost var was := st;
      while true
        invariant Linked() && Inv(st, distinct, Some(name)) && Draining(was, st, name) && name in st.methods
        invariant NothingLost(was, st, old(env.log), env.log)
        decreases |st.queue|
      {
        var p, it := FindQueuedFor(name);
        if p < 0 {
          break;
        }
        ghost var mid, log := st, env.log;
        if it.value.MethodItem? {
          DrainQueuedMethod(p, it.value);
        } else {
          DrainQueuedLine(p, it.value);
        }
        NothingLostTwice(was, mid, st, old(env.log), log, env.log);
        StepDrains(was, mid, st, p, name);
        StepShortens(mid, st, p, name);
      }
    }

    /** `cleanup_dangling` */
    method CleanupDangling(e: Entry, side: Side)
      requires Linked() && e.LineEntry? && st.methods.Keys == st.lines.Keys
      modifies repr - {this}, env, this`st, this`pending, this`installed
      ensures Linked() && Dangling(old(st), st, e, side)
      ensures old(env.log) <= env.log
    {
      hide Linked, DropLine, Wanted;
      var other := e.ClassOf(side);
      var found := IsLoaded(other);
      if !found {
        return;
      }
      var removed := RemoveLineRec(other, e.LineOf(side));
      var ignored, accepted := ReinstallClass(other);
    }

    /** `cleanup_failed_line` */
    method CleanupFailedLine(r: LineRec)
      requires Linked() && st.methods.Keys == st.lines.Keys && (r.id in st.registry ==> LineAt(st.registry, r.id))
      modifies repr - {this}, env, this`st, this`pending, this`installed
      ensures Linked() && old(st).methods.Keys == old(st).lines.Keys && RecordCleaned(old(st), st, r)
      ensures old(env.log) <= env.log
    {
      hide Linked, Freed, Dangling, RecordCleaned;
      ghost var was := st;
      var entry := EntryOf(r.id);
      var cross := entry.Some? && entry.value.cls != entry.value.exitCls;
      if cross {
        CleanupDangling(entry.value, OtherSide(r.side));
      }
      ghost var mid := st;
      if r.side == Enter || cross {
        MiRemove(r.id);
        SlotRemove(r.slot);
      }
      CleanedSteps(was, mid, st, r);
    }

    method RecordsOf(cls: string) returns (ms: seq<MethodRec>, ls: seq<LineRec>)
      requires Linked() && cls in st.methods
      ensures Linked() && cls in st.lines && ms == st.methods[cls] && ls == st.lines[cls]
    {
      ms, ls := loaded[cls].methods, loaded[cls].lines;
    }

    method ClearClass(cls: string)
      requires Linked() && cls in st.methods
      modifies repr - {this}, this`st, this`pending, this`installed
      ensures Linked() && st == old(st).(methods := old(st).methods[cls := []], lines := old(st).lines[cls := []])
    {
      loaded[cls].Clear();
      st := st.(methods := st.methods[cls := []], lines := st.lines[cls := []]);
    }

    /** The class's method instruments lose their entries and slots. */
    method CleanUpMethods(name: string, ms: seq<MethodRec>, ghost was: State) returns (ghost gone: set<Id>)
      requires Linked() && Inv(was, distinct, None) && name in was.methods && name in was.lines &&
               ms == was.methods[name]
      requires Cleaning(was, st, name, {}, was.installed) &&
               (distinct ==> CleaningExact(was, st, name, {}, was.installed))
      modifies repr - {this}, this`st, this`pending, this`installed
      ensures Linked() && Cleaning(was, st, name, gone, was.installed) && st.lines.Keys == was.lines.Keys
      ensures distinct ==> CleaningExact(was, st, name, gone, was.installed)
      ensures forall r :: r in ms ==> r.id in gone
    {
      hide Linked, Inv, Cleaning, CleaningExact, Freed;
      gone := {};
      CleaningKeys(was, st, name, gone, was.installed);
      var i := 0;
      while i < |ms|
        invariant 0 <= i <= |ms| && Linked() && st.lines.Keys == was.lines.Keys
        invariant Cleaning(was, st, name, gone, was.installed) &&
                  (distinct ==> CleaningExact(was, st, name, gone, was.installed))
        invariant forall k :: 0 <= k < i ==> ms[k].id in gone
      {
        ghost var mid := st;
        MiRemove(ms[i].id);
        SlotRemove(ms[i].slot);
        MethodCleaned(was, mid, st, name, gone, was.installed, ms[i], distinct);
        gone := gone + {ms[i].id};
        CleaningKeys(was, st, name, gone, was.installed);
        i := i + 1;
      }
    }

    /** So do its line instruments, which also lose the record in their other class. */
    method CleanUpLines(name: string, ls: seq<LineRec>, ghost was: State, ghost before: set<Id>)
      returns (ghost gone: set<Id>, ghost inst: Installed)
      requires Linked() && Inv(was, distinct, None) && name in was.methods && name in was.lines && ls == was.lines[name]
      requires Cleaning(was, st, name, before, was.installed) &&
               (distinct ==> CleaningExact(was, st, name, before, was.installed))
      requires st.lines.Keys == was.lines.Keys
      modifies repr - {this}, env, this`st, this`pending, this`installed
      ensures Linked() && Cleaning(was, st, name, gone, inst) && before <= gone && st.lines.Keys == was.lines.Keys
      ensures distinct ==> CleaningExact(was, st, name, gone, inst)
      ensures forall r :: r in ls && (r.side == Enter || CrossClass(was.registry, r.id)) ==> r.id in gone
      ensures old(env.log) <= env.log
    {
      hide Linked, Inv, Cleaning, CleaningExact, Freed, RecordCleaned, CrossClass;
      gone, inst := before, was.installed;
      var i := 0;
      while i < |ls|
        invariant old(env.log) <= env.log
        invariant 0 <= i <= |ls| && Linked() && st.lines.Keys == was.lines.Keys && before <= gone
        invariant Cleaning(was, st, name, gone, inst) && (distinct ==> CleaningExact(was, st, name, gone, inst))
        invariant forall k :: 0 <= k < i && (ls[k].side == Enter || CrossClass(was.registry, ls[k].id)) ==>
                  ls[k].id in gone
      {
        ghost var mid := st;
        CleaningLine(was, st, name, gone, inst, ls[i], distinct);
        CleanupFailedLine(ls[i]);
        inst := LineCleaned(was, mid, st, name, gone, inst, ls[i], distinct);
        gone := GoneAfter(was.registry, gone, ls[i]);
        CleaningKeys(was, st, name, gone, inst);
        i := i + 1;
      }
    }

    /** The failure path of `ih_reapply_instruments`. The class's own lists do
        not change while the loops go over them. */
    method CleanUp(name: string, ghost was: State) returns (ghost gone: set<Id>)
      requires Linked() && Inv(was, distinct, None) && name in was.methods && name in was.lines
      requires st == was.(installed := was.installed[name := {}])
      modifies repr - {this}, env, this`st, this`pending, this`installed
      ensures Linked() && Inv(st, distinct, None) && Retired(was, st, gone, distinct) && RecordedIn(was, name, gone)
      ensures st.queue == was.queue && st.nextId == was.nextId && (distinct ==> gone == Recorded(was, name))
      ensures old(env.log) <= env.log
    {
      hide Linked, Inv, Cleaning, CleaningExact, Retired, RecordedIn, Recorded, CrossClass;
      var ms, ls := RecordsOf(name);
      CleaningStarts(was, st, name, distinct);
      ghost var methodsGone := CleanUpMethods(name, ms, was);
      ghost var inst;
      gone, inst := CleanUpLines(name, ls, was, methodsGone);
      ghost var mid := st;
      CleaningKeys(was, st, name, gone, inst);
      ClearClass(name);
      ClearedRetires(was, mid, st, name, gone, inst, distinct);
    }

    /** `ih_reapply_instruments`: all the class's instruments stay, or all go. */
    method Reapply(name: string, ghost was: State) returns (ghost gone: set<Id>)
      requires Linked() && Inv(was, distinct, None) && name in was.methods && name in was.lines
      requires st == was.(installed := was.installed[name := {}])
      modifies repr - {this}, env, this`st, this`pending, this`installed
      ensures Linked() && Inv(st, distinct, None) && Retired(was, st, gone, distinct) && RecordedIn(was, name, gone)
      ensures st.queue == was.queue && st.nextId == was.nextId &&
              (distinct && gone != {} ==> gone == Recorded(was, name))
      ensures NothingLost(was, st, old(env.log), env.log)
    {
      hide Linked, Inv, Retired, RecordedIn, Recorded, Wanted, Refused, TakenSince;
      ghost var log := env.log;
      SameKeys(was, distinct, None);
      var ms, ls := RecordsOf(name);
      NothingRecorded(was, name);
      if |ms| == 0 && |ls| == 0 {
        NothingWanted();
        ReappliedKeeps(was, st, name, distinct);
        NothingLostYet(st, env.log);
        return {};
      }
      var ok := PerformInstrumentation(name);
      if ok {
        ReappliedKeeps(was, st, name, distinct);
        return {};
      }
      ghost var mid := env.log;
      gone := CleanUp(name, was);
      StillRefused(log, mid, env.log);
    }

    /** `hash_tab_add`: the class is in the list, under its name, and displaces a namesake. */
    method PutClass(ci: ClassInfo)
      requires Linked() && ci.methods == [] && ci.lines == [] && ci !in repr
      modifies this`st, this`loaded, this`installed, this`repr
      ensures Linked() && repr == old(repr) + {ci} && loaded == old(loaded)[ci.name := ci]
      ensures st == old(st).(methods := old(st).methods[ci.name := []], lines := old(st).lines[ci.name := []],
                             installed := old(st).installed[ci.name := {}])
    {
      loaded, installed, repr := loaded[ci.name := ci], installed[ci.name := {}], repr + {ci};
      st := st.(methods := st.methods[ci.name := []], lines := st.lines[ci.name := []], installed := installed);
    }

    /** The class takes over the records of the one it displaced. */
    method TakeOver(ci: ClassInfo, prev: ClassInfo)
      requires Linked() && prev in repr && ci.name in st.methods && ci.name in loaded && loaded[ci.name] == ci
      requires forall c :: c in loaded ==> loaded[c] != prev
      modifies this`st, ci, prev
      ensures Linked()
      ensures st == old(st).(methods := old(st).methods[ci.name := old(prev.methods)],
                             lines := old(st).lines[ci.name := old(prev.lines)])
    {
      ci.StealFrom(prev);
      st := st.(methods := st.methods[ci.name := ci.methods], lines := st.lines[ci.name := ci.lines]);
    }

    method Predecessor(name: string) returns (prev: ClassInfo)
      requires Linked() && name in st.methods
      ensures Linked() && prev in repr && name in st.lines && prev.methods == st.methods[name] &&
              prev.lines == st.lines[name]
      ensures forall c :: c in loaded && c != name ==> loaded[c] != prev
    {
      prev := loaded[name];
    }

    /** `ci_list_add` for a class of a known name: records kept, probes gone. */
    method ReplaceClass(ci: ClassInfo)
      requires Linked() && ci.methods == [] && ci.lines == [] && ci !in repr && ci.name in st.methods &&
               ci.name in st.lines
      modifies this`st, this`loaded, this`installed, this`repr, repr - {this}, ci
      ensures Linked() && repr == old(repr) + {ci}
      ensures st == old(st).(installed := old(st).installed[ci.name := {}])
    {
      hide Linked;
      ghost var was := st;
      var prev := Predecessor(ci.name);
      PutClass(ci);
      TakeOver(ci, prev);
      PutBack(was.methods, was.lines, ci.name);
    }

    /** `ci_alloc` and `ci_list_add` */
    method AddClass(name: string) returns (r: Loading)
      requires Linked() && st.methods.Keys == st.lines.Keys
      modifies this`st, this`loaded, this`installed, this`repr, repr - {this}, env
      ensures Linked() && fresh(repr - old(repr)) && ClassPlaced(old(st), st, name, r)
      ensures Went(old(env.log), env.log, r != NotLoaded)
    {
      hide Linked;
      var known := IsLoaded(name);
      ghost var was := env.log;
      EnvApart();
      var created := env.Ask(Memory);
      ghost var mid := env.log;
      WentOne(was, Call(Memory, created));
      if !created {
        return NotLoaded;
      }
      var added := env.Ask(Memory);
      WentOne(mid, Call(Memory, added));
      WentOn(was, mid, env.log, created, added);
      if !added {
        return NotLoaded;
      }
      var ci := NewClassInfo(name);
      if known {
        ReplaceClass(ci);
        r := Duplicate;
      } else {
        PutClass(ci);
        r := NewClass;
      }
    }

    method NewClassInfo(name: string) returns (ci: ClassInfo)
      requires Linked()
      ensures Linked() && fresh(ci) && ci !in repr && ci.name == name && ci.methods == [] && ci.lines == []
    {
      ci := new ClassInfo(name);
    }

    method FirstLoad(name: string, ghost was: State)
      requires Linked() && Inv(was, distinct, None) && ClassPlaced(was, st, name, NewClass)
      modifies repr - {this}, env, this`st, this`pending, this`installed
      ensures Linked() && Inv(st, distinct, None) && LoadedOutcome(was, st, name) && Successor(was, st)
      ensures NothingLost(old(st), st, old(env.log), env.log)
    {
      hide Linked, Inv, LoadedOutcome, Successor, Draining;
      ghost var start := st;
      ClassAdded(was, st, name, distinct);
      Drain(name);
      DrainEnds(was, start, st, name, distinct);
    }

    method Reload(name: string, ghost was: State) returns (ghost gone: set<Id>)
      requires Linked() && Inv(was, distinct, None) && ClassPlaced(was, st, name, Duplicate)
      modifies repr - {this}, env, this`st, this`pending, this`installed
      ensures Linked() && Inv(st, distinct, None) && LoadedOutcome(was, st, name) && Successor(was, st)
      ensures NothingLost(old(st), st, old(env.log), env.log)
    {
      hide Linked, Inv, Retired, RecordedIn, Recorded, LoadedOutcome, Successor, Draining;
      SameKeys(was, distinct, None);
      gone := Reapply(name, was);
      ghost var mid, log := st, env.log;
      GoneConcern(was, name, gone, distinct);
      ReloadAdvances(was, mid, gone, name, distinct);
      MayWait(mid, distinct, name);
      DrainHasClass(was, mid, name);
      Drain(name);
      NothingLostTwice(was, mid, st, old(env.log), log, env.log);
      DrainsTwice(was, mid, st, name);
      DrainEnds(was, was, st, name, distinct);
    }

    /** `handle_class_loaded` */
    method ClassLoaded(name: string) returns (r: Loading)
      requires Valid()
      modifies this`st, this`pending, this`loaded, this`installed, this`repr, repr - {this}, env
      ensures Valid() && fresh(repr - old(repr)) && Successor(old(st), st)
      ensures r == NewClass ==> name !in old(st).methods
      ensures r == Duplicate ==> name in old(st).methods
      ensures r == NotLoaded ==> st == old(st)
      ensures r != NotLoaded ==> LoadedOutcome(old(st), st, name)
      ensures NothingLost(old(st), st, old(env.log), env.log) && (r == NotLoaded ==> Refused(old(env.log), env.log))
    {
      hide Valid, Linked, Inv, LoadedOutcome, Successor, ClassPlaced, NothingLost;
      Open();
      ghost var was := st;
      SameKeys(was, distinct, None);
      r := AddClass(name);
      ghost var placed, log := st, env.log;
      PlacedByName(was, st, name, r);
      PlacedKeeps(was, placed, name, r, old(env.log), log);
      if r == NotLoaded {
        SameSucceeds(st);
      } else if r == NewClass {
        FirstLoad(name, was);
        NothingLostTwice(was, placed, st, old(env.log), log, env.log);
      } else {
        ghost var gone := Reload(name, was);
        NothingLostTwice(was, placed, st, old(env.log), log, env.log);
      }
      Close();
    }

    ghost function Now(): Moment
      reads this`st, this`distinct, env
    {
      Moment(st, env.log, distinct)
    }

    method Handle(event: Event) returns (reply: Reply)
      requires Valid()
      modifies this`st, this`pending, this`loaded, this`installed, this`repr, this`distinct, repr - {this}, env
      ensures Valid() && fresh(repr - old(repr)) && Successor(old(st), st)
      ensures Handled(old(Now()), Now(), event, reply)
    {
      hide Valid, Successor, MethodOutcome, LineOutcome, DeinstrumentOutcome, Answer, BytecodeTaken, ProbesGone,
           LoadedOutcome, NothingLost, Apart, NewMethod, Went, MadeSince, TakenSince, Refused;
      ghost var a := Now();
      match event
      case InstrumentMethodRequest(cls, sig) =>
        var status, id, slot := InstrumentMethod(cls, sig);
        assert MethodOutcome(a.state, st, cls, sig, status, id, slot);
        reply := Answered(status, id);
      case InstrumentLineRequest(cls, exitCls, line, exitLine) =>
        var status, id, slot := InstrumentLine(cls, exitCls, line, exitLine);
        assert LineOutcome(a.state, st, LineEntry(cls, exitCls, line, exitLine, true, true), status, id, slot);
        reply := Answered(status, id);
      case DeinstrumentRequest(id) =>
        var ok, made, done := DeinstrumentById(id);
        assert TakenAway(a, Now(), id, ok);
        reply := Removed(ok);
      case DeinstrumentMethodRequest(cls, sig) =>
        var ok, id, made, done := DeinstrumentMethod(cls, sig);
        assert TakenAway(a, Now(), id, ok);
        reply := Removed(ok);
      case ClassLoad(name) =>
        var r := ClassLoaded(name);
        reply := Loaded(r);
    }

    /** The event loop: in every state reached by any events, with any failures,
        the parts agree, no number is given out twice, and each event has the
        effect and the reply it should have. */
    method Run(events: seq<Event>) returns (replies: seq<Reply>, ghost moments: seq<Moment>)
      requires Valid()
      modifies this`st, this`pending, this`loaded, this`installed, this`repr, this`distinct, repr - {this}, env
      ensures Valid() && fresh(repr - old(repr)) && Successor(old(st), st)
      ensures |replies| == |events| && |moments| == |events| + 1
      ensures moments[0] == old(Now()) && moments[|events|] == Now()
      ensures forall i :: 0 <= i < |events| ==> Handled(moments[i], moments[i + 1], events[i], replies[i])
    {
      hide Valid, Successor, Handled, Now;
      SameSucceeds(st);
      ghost var was := st;
      replies, moments := [], [Now()];
      for i := 0 to |events|
        invariant Valid() && fresh(repr - old(repr)) && Successor(was, st)
        invariant |replies| == i && |moments| == i + 1 && moments[0] == old(Now()) && moments[i] == Now()
        invariant forall j :: 0 <= j < i ==> Handled(moments[j], moments[j + 1], events[j], replies[j])
      {
        ghost var mid := st;
        var reply := Handle(events[i]);
        SucceedsTwice(was, mid, st);
        replies, moments := replies + [reply], moments + [Now()];
      }
    }
  }

  /** The handler between two events. */
  datatype Moment = Moment(state: State, log: seq<Call>, distinct: bool)

  datatype Reply = Answered(status: Status, id: Id) | Removed(ok: bool) | Loaded(how: Loading)

  /** What an event does and how it is answered, whatever is refused meanwhile. */
  ghost predicate Handled(a: Moment, b: Moment, event: Event, reply: Reply) {
    && (!event.InstrumentLineRequest? ==> b.distinct == a.distinct)
    && match event
       case InstrumentMethodRequest(cls, sig) =>
         && reply.Answered? && Went(a.log, b.log, reply.status != Error)
         && exists slot :: MethodOutcome(a.state, b.state, cls, sig, reply.status, reply.id, slot)
       case InstrumentLineRequest(cls, exitCls, line, exitLine) =>
         var e := LineEntry(cls, exitCls, line, exitLine, true, true);
         && reply.Answered? && Went(a.log, b.log, reply.status != Error) && a.state.methods.Keys == a.state.lines.Keys
         && b.distinct == (a.distinct && Apart(a.state.registry, e))
         && exists slot :: LineOutcome(a.state, b.state, e, reply.status, reply.id, slot)
       case DeinstrumentRequest(id) => reply.Removed? && TakenAway(a, b, id, reply.ok)
       case DeinstrumentMethodRequest(cls, sig) =>
         && reply.Removed?
         && if NewMethod(a.state.registry, cls, sig) then !reply.ok && b.state == a.state
            else exists id :: MethodNamed(a.state.registry, id, cls, sig) && TakenAway(a, b, id, reply.ok)
       case ClassLoad(name) =>
         && reply.Loaded? && NothingLost(a.state, b.state, a.log, b.log)
         && if reply.how == NotLoaded then b.state == a.state && Refused(a.log, b.log)
            else (reply.how == NewClass <==> name !in a.state.methods) && LoadedOutcome(a.state, b.state, name)
  }

  predicate MethodNamed(reg: Registry, id: Id, cls: string, sig: string) {
    MethodAt(reg, id) && reg[id].cls == cls && reg[id].sig == sig
  }

  ghost predicate TakenAway(a: Moment, b: Moment, id: Id, ok: bool) {
    && DeinstrumentOutcome(a.state, b.state, id, ok, a.distinct)
    && (ok <==> Answer(a.state.registry, id, MadeSince(a.log, b.log), TakenSince(a.log, b.log)))
    && BytecodeTaken(a.state, b.state, id, TakenSince(a.log, b.log))
  }

  /** An instrument is lost only if something asked for has been refused. */
  ghost predicate NothingLost(s: State, s': State, was: seq<Call>, now: seq<Call>) {
    was <= now && (!Refused(was, now) ==> s'.registry.Keys == s.registry.Keys)
  }

  lemma {:induction false} NothingLostYet(s: State, was: seq<Call>)
    ensures NothingLost(s, s, was, was)
  {
  }

  lemma {:induction false} NothingLostTwice(s: State, mid: State, s': State, was: seq<Call>, between: seq<Call>,
                                            now: seq<Call>)
    requires NothingLost(s, mid, was, between) && NothingLost(mid, s', between, now)
    ensures NothingLost(s, s', was, now)
  {
    WentOn(was, between, now, !Refused(was, between), !Refused(between, now));
  }

  lemma {:induction false} PlacedKeeps(s: State, s': State, name: string, r: Loading, was: seq<Call>, now: seq<Call>)
    requires ClassPlaced(s, s', name, r) && was <= now
    ensures NothingLost(s, s', was, now)
  {
  }

  lemma {:induction false} StillRefused(was: seq<Call>, mid: seq<Call>, now: seq<Call>)
    requires was <= mid <= now && Refused(was, mid)
    ensures Refused(was, now)
  {
    WentOn(was, mid, now, false, !Refused(mid, now));
  }

  lemma {:induction false} NowKeeps(s: State, s': State, cls: string, id: Id, slot: nat, ok: bool, was: seq<Call>,
                                    now: seq<Call>)
    requires cls in s.methods && cls in s.lines && MethodAt(s.registry, id) && (ok ==> NowApplied(s, s', cls, id, slot))
    requires Went(was, now, ok)
    ensures NothingLost(s, s', was, now)
  {
    hide Wanted;
  }

  lemma {:induction false} LineNowKeeps(s: State, s': State, e: Entry, id: Id, slot: nat, ok: bool, was: seq<Call>,
                                        now: seq<Call>)
    requires e.LineEntry? && e.cls in s.methods && e.exitCls in s.methods && s.methods.Keys == s.lines.Keys
    requires id in s.registry && LineNow(s, s', e, id, slot, ok) && Went(was, now, ok)
    ensures NothingLost(s, s', was, now)
  {
    hide Wanted, DropLine, AddLines;
  }

  lemma {:induction false} PutBack(ms: Methods, ls: Lines, name: string)
    requires name in ms && name in ls
    ensures ms[name := []][name := ms[name]] == ms && ls[name := []][name := ls[name]] == ls
  {
  }
}
