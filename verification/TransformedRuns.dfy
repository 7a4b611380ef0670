/**
 What the classes the pass answers with do when they run, in terms of the
 requests it was given: which slots their probes carry, and where they run.
 */
module TransformedRuns {
  import opened Prelude
  import opened MethodBody
  import opened Instrumenter
  import opened Simulation
  import opened Transformer

  /** The calls requested at one line, in the order of the requests. */
  function RequestedAt(numbers: seq<int>, types: seq<int>, ids: seq<int>, n: int): seq<Event>
    requires |numbers| == |types| == |ids|
  {
    if numbers == [] then []
    else
      var last := |numbers| - 1;
      RequestedAt(numbers[..last], types[..last], ids[..last], n) +
      if numbers[last] == n then [Called(if types[last] == 0 then EnterLine else ExitLine, ids[last])] else []
  }

  /** A trace of line markers, each followed by the calls requested there. */
  function Annotated(trace: seq<Event>, numbers: seq<int>, types: seq<int>, ids: seq<int>): seq<Event>
    requires |numbers| == |types| == |ids|
  {
    if trace == [] then []
    else
      var e := trace[|trace| - 1];
      Annotated(trace[..|trace| - 1], numbers, types, ids) + [e] +
      if e.AtLine? then RequestedAt(numbers, types, ids, e.number) else []
  }

  /** Request `j` is the one that counts for a signature. */
  predicate LastRequest(sigs: seq<string>, j: int, sig: string) {
    0 <= j < |sigs| && sigs[j] == sig && forall i :: j < i < |sigs| ==> sigs[i] != sig
  }

  /** There is one exactly for the signatures that have been requested, and only one. */
  lemma {:induction false} LastRequestIff(sigs: seq<string>, sig: string)
    ensures sig in sigs <==> exists j :: LastRequest(sigs, j, sig)
    ensures forall i, j :: LastRequest(sigs, i, sig) && LastRequest(sigs, j, sig) ==> i == j
    decreases |sigs|
  {
    if sigs == [] {
    } else {
      var last := |sigs| - 1;
      assert sigs == sigs[..last] + [sigs[last]];
      if sigs[last] == sig {
        assert LastRequest(sigs, last, sig);
      } else {
        LastRequestIff(sigs[..last], sig);
        if sig in sigs[..last] {
          var j :| LastRequest(sigs[..last], j, sig);
          assert LastRequest(sigs, j, sig);
        }
      }
    }
  }

  /** Each request at a line is one call there, behind those of the earlier requests. */
  lemma {:induction false} RequestedInOrder(numbers: seq<int>, types: seq<int>, ids: seq<int>, k: nat)
    requires |numbers| == |types| == |ids| && k < |numbers|
    ensures var calls, rank := RequestedAt(numbers, types, ids, numbers[k]), multiset(numbers[..k])[numbers[k]];
            && rank < |calls| == multiset(numbers)[numbers[k]]
            && calls[rank] == Called(if types[k] == 0 then EnterLine else ExitLine, ids[k])
  {
    RequestedIsTable(numbers, types, ids, numbers[k]);
    LineTableInOrder(numbers, types, ids, k);
  }

  /** The line table holds exactly the requests. */
  lemma {:induction false} RequestedIsTable(numbers: seq<int>, types: seq<int>, ids: seq<int>, n: int)
    requires |numbers| == |types| == |ids|
    ensures var t := LineTable(numbers, types, ids);
            RequestedAt(numbers, types, ids, n) == LineEvents(if n in t then t[n] else [])
    decreases |numbers|
  {
    if numbers == [] {
    } else {
      var last := |numbers| - 1;
      RequestedIsTable(numbers[..last], types[..last], ids[..last], n);
    }
  }

  lemma {:induction false} AnnotatedIsWithProbes(p: Plan, trace: seq<Event>, numbers: seq<int>, types: seq<int>,
                                                 ids: seq<int>)
    requires |numbers| == |types| == |ids| && p.lines == LineTable(numbers, types, ids)
    ensures WithProbes(p, trace) == Annotated(trace, numbers, types, ids)
    decreases |trace|
  {
    hide RequestedAt, LineTable, LineEvents;
    if trace == [] {
    } else {
      var n := |trace| - 1;
      AnnotatedIsWithProbes(p, trace[..n], numbers, types, ids);
      EventIsAnnotated(p, trace[n], numbers, types, ids);
      hide EventWithProbes;
    }
  }

  lemma {:induction false} EventIsAnnotated(p: Plan, e: Event, numbers: seq<int>, types: seq<int>, ids: seq<int>)
    requires |numbers| == |types| == |ids| && p.lines == LineTable(numbers, types, ids)
    ensures forall before: seq<Event> :: before + EventWithProbes(p, e) ==
              before + [e] + if e.AtLine? then RequestedAt(numbers, types, ids, e.number) else []
  {
    hide RequestedAt, LineTable, LineEvents;
    if e.AtLine? {
      RequestedIsTable(numbers, types, ids, e.number);
    }
  }

  predicate IntsFit(ids: seq<int>) { forall k :: 0 <= k < |ids| ==> -0x8000_0000 <= ids[k] < 0x8000_0000 }

  lemma {:induction false} PlanFits(sigs: seq<string>, ids: seq<int>, numbers: seq<int>, types: seq<int>,
                                    lineIds: seq<int>, sig: string)
    requires |sigs| == |ids| && |numbers| == |types| == |lineIds| && IntsFit(ids) && IntsFit(lineIds)
    ensures var p := PlanFor(MethodTable(sigs, ids), LineTable(numbers, types, lineIds), sig);
            SlotsFit(p) && LineKinds(p)
  {
    TableFits(sigs, ids);
    LineTableFits(numbers, types, lineIds);
  }

  lemma {:induction false} TableFits(sigs: seq<string>, ids: seq<int>)
    requires |sigs| == |ids| && IntsFit(ids)
    ensures forall sig :: sig in MethodTable(sigs, ids) ==> Int32(MethodTable(sigs, ids)[sig])
    decreases |sigs|
  {
    if sigs == [] {
    } else {
      TableFits(sigs[..|sigs| - 1], ids[..|ids| - 1]);
    }
  }

  predicate ListFits(ls: seq<LineInstrument>) {
    AllFit(ls) && forall k :: 0 <= k < |ls| ==> ls[k].kind in {EnterLine, ExitLine}
  }

  lemma {:induction false} LineTableFits(numbers: seq<int>, types: seq<int>, ids: seq<int>)
    requires |numbers| == |types| == |ids| && IntsFit(ids)
    ensures forall n :: n in LineTable(numbers, types, ids) ==> ListFits(LineTable(numbers, types, ids)[n])
    decreases |numbers|
  {
    if numbers == [] {
    } else {
      var last := |numbers| - 1;
      var before := LineTable(numbers[..last], types[..last], ids[..last]);
      LineTableFits(numbers[..last], types[..last], ids[..last]);
      var n, added := numbers[last], LineInstrument(KindOf(types[last]), ids[last]);
      FitsMore(if n in before then before[n] else [], added);
      hide ListFits;
    }
  }

  lemma {:induction false} FitsMore(ls: seq<LineInstrument>, l: LineInstrument)
    requires ListFits(ls) && Int32(l.profilerId) && l.kind in {EnterLine, ExitLine}
    ensures ListFits(ls + [l])
  {
  }

  /** The signature's last request, if there is one, decides the slot. */
  lemma {:induction false} SlotOfLast(sigs: seq<string>, ids: seq<int>, lines: map<int, seq<LineInstrument>>,
                                      sig: string)
    requires |sigs| == |ids|
    ensures sig !in sigs ==> PlanFor(MethodTable(sigs, ids), lines, sig) == Plan(None, lines)
    ensures forall j :: LastRequest(sigs, j, sig) ==>
              PlanFor(MethodTable(sigs, ids), lines, sig) == Plan(Some(ids[j]), lines)
  {
    forall j | LastRequest(sigs, j, sig)
      ensures PlanFor(MethodTable(sigs, ids), lines, sig) == Plan(Some(ids[j]), lines)
    {
      LastRequestWins(sigs, ids, j);
    }
  }

  /**
   Whenever a method of an answered class completes, so does the original, in
   the same way. A method that was requested calls `enter` with the slot of its
   last request first and `exit` with the same slot last, and nowhere else; one
   that was not calls neither. In between are the line markers of the original
   run, each followed by exactly the calls requested at that line, in order.
   */
  lemma {:induction false} RunsAsRequested<M(!new)>(ms: seq<Method>, sigs: seq<string>, ids: seq<int>,
                                                    numbers: seq<int>, types: seq<int>, lineIds: seq<int>,
                                                    out: seq<Method>, k: nat, m: Machine<M>, mem: M, n: nat)
    returns (o: nat)
    requires |sigs| == |ids| && |numbers| == |types| == |lineIds| && IntsFit(ids) && IntsFit(lineIds)
    requires Answers(ms, sigs, ids, numbers, types, lineIds, out) && k < |ms|
    requires Original(ms[k].body) && NeverStuck(ms[k].body, m, mem)
    ensures |out| == |ms| && out[k].sig == ms[k].sig
    ensures var was, now := Run(ms[k].body, m, Start(mem), o), Run(out[k].body, m, Start(mem), n);
            !now.Running? ==>
              && !was.Running? && !was.Stuck? && !now.Stuck? && now.mem == was.mem
              && (was.Returned? ==> now.Returned? && now.opcode == was.opcode && now.stack == was.stack)
              && (was.Escaped? ==> now.Escaped? && now.exc == was.exc)
              && (forall j :: LastRequest(sigs, j, ms[k].sig) ==>
                    && now.trace == [Called(Enter, ids[j])] + Annotated(was.trace, numbers, types, lineIds) +
                                    [Called(Exit, ids[j])]
                    && MethodProbes(now.trace) == [Called(Enter, ids[j]), Called(Exit, ids[j])])
              && (ms[k].sig !in sigs ==>
                    now.trace == Annotated(was.trace, numbers, types, lineIds) && MethodProbes(now.trace) == [])
  {
    var b, sig := ms[k].body, ms[k].sig;
    var p := PlanFor(MethodTable(sigs, ids), LineTable(numbers, types, lineIds), sig);
    assert out[k].sig == sig && out[k].body == Instrument(p, b);
    o := 0;
    if !Run(out[k].body, m, Start(mem), n).Running? {
      PlanFits(sigs, ids, numbers, types, lineIds, sig);
      o := CompletedRunsMatch(p, b, m, mem, n);
      var was := Run(b, m, Start(mem), o);
      OriginalTracesAreLines(b, m, mem, o);
      SlotOfLast(sigs, ids, p.lines, sig);
      LastRequestIff(sigs, sig);
      hide PlanFor;
      EndsAsRequested(p, b, was, Run(out[k].body, m, Start(mem), n), numbers, types, lineIds);
    }
  }

  lemma {:induction false} EndsAlike<M>(p: Plan, b: Body, was: Config<M>, now: Config<M>)
    requires Match(p, b, was, now) && !was.Running?
    ensures !was.Stuck? && !now.Stuck? && !now.Running? && now.mem == was.mem
    ensures was.Returned? ==> now.Returned? && now.opcode == was.opcode && now.stack == was.stack
    ensures was.Escaped? ==> now.Escaped? && now.exc == was.exc
    ensures now.trace == if p.ident.Some? then [Called(Enter, p.ident.value)] + WithProbes(p, was.trace) +
                                               [Called(Exit, p.ident.value)]
                         else WithProbes(p, was.trace)
  {
    hide WithProbes;
    assert [] + WithProbes(p, was.trace) + [] == WithProbes(p, was.trace);
  }

  /** The two endings compared, for the plan of the method. */
  lemma {:induction false} EndsAsRequested<M>(p: Plan, b: Body, was: Config<M>, now: Config<M>, numbers: seq<int>,
                                              types: seq<int>, lineIds: seq<int>)
    requires |numbers| == |types| == |lineIds| && p.lines == LineTable(numbers, types, lineIds) && LineKinds(p)
    requires Match(p, b, was, now) && !was.Running? && OnlyLines(TraceOf(was))
    ensures !was.Stuck? && !now.Stuck? && !now.Running? && now.mem == was.mem
    ensures was.Returned? ==> now.Returned? && now.opcode == was.opcode && now.stack == was.stack
    ensures was.Escaped? ==> now.Escaped? && now.exc == was.exc
    ensures p.ident.Some? ==>
              && now.trace == [Called(Enter, p.ident.value)] + Annotated(was.trace, numbers, types, lineIds) +
                              [Called(Exit, p.ident.value)]
              && MethodProbes(now.trace) == [Called(Enter, p.ident.value), Called(Exit, p.ident.value)]
    ensures p.ident.None? ==>
              now.trace == Annotated(was.trace, numbers, types, lineIds) && MethodProbes(now.trace) == []
  {
    AnnotatedIsWithProbes(p, was.trace, numbers, types, lineIds);
    hide LineTable, Annotated, WithProbes, MethodProbes, LineKinds, OnlyLines, Match;
    EndsAlike(p, b, was, now);
    if p.ident.Some? {
      Bracketed(p, was.trace);
    } else {
      NoneInWithProbes(p, was.trace);
    }
  }

  /** A method of an answered class completes if and only if the original does. */
  lemma {:induction false} CompletesAsOriginal<M(!new)>(ms: seq<Method>, sigs: seq<string>, ids: seq<int>,
                                                        numbers: seq<int>, types: seq<int>, lineIds: seq<int>,
                                                        out: seq<Method>, k: nat, m: Machine<M>, mem: M)
    requires |sigs| == |ids| && |numbers| == |types| == |lineIds| && IntsFit(ids) && IntsFit(lineIds)
    requires Answers(ms, sigs, ids, numbers, types, lineIds, out) && k < |ms|
    requires Original(ms[k].body) && NeverStuck(ms[k].body, m, mem)
    ensures |out| == |ms|
    ensures (exists n: nat :: !Run(ms[k].body, m, Start(mem), n).Running?) <==>
            (exists n: nat :: !Run(out[k].body, m, Start(mem), n).Running?)
  {
    var p := PlanFor(MethodTable(sigs, ids), LineTable(numbers, types, lineIds), ms[k].sig);
    PlanFits(sigs, ids, numbers, types, lineIds, ms[k].sig);
    assert out[k].body == Instrument(p, ms[k].body);
    CompletionAgrees(p, ms[k].body, m, mem);
  }
}
