/**
 What the handler asks of the world outside: memory, profilers, new bytecode
 from the transformer, and its installation by the JVM. Any answer may be no.
 */
module Environment {
  import opened Prelude

  datatype Need = Memory | Profiler | Transformation(cls: string) | Installation(cls: string)

  datatype Call = Call(need: Need, ok: bool)

  class World {
    /** Everything asked so far, with the answers. */
    ghost var log: seq<Call>

    constructor ()
      ensures log == []
    {
      log := [];
    }

    method Ask(ghost need: Need) returns (ok: bool)
      modifies this
      ensures log == old(log) + [Call(need, ok)]
    {
      ok := Attempt();
      log := log + [Call(need, ok)];
    }
  }

  /** Since `was` something has been refused. */
  ghost predicate Refused(was: seq<Call>, now: seq<Call>) { exists i :: |was| <= i < |now| && !now[i].ok }

  /** `ok` says exactly whether everything asked since `was` has been granted. */
  ghost predicate Went(was: seq<Call>, now: seq<Call>, ok: bool) { was <= now && (ok <==> !Refused(was, now)) }

  lemma {:induction false} WentNowhere(was: seq<Call>)
    ensures Went(was, was, true)
  {
  }

  lemma {:induction false} WentOn(was: seq<Call>, mid: seq<Call>, now: seq<Call>, first: bool, second: bool)
    requires Went(was, mid, first) && Went(mid, now, second)
    ensures Went(was, now, first && second)
  {
    if !first {
      var i :| |was| <= i < |mid| && !mid[i].ok;
      assert now[i] == mid[i];
    } else if !second {
      var i :| |mid| <= i < |now| && !now[i].ok;
    } else {
      forall i | |was| <= i < |now| ensures now[i].ok {
        assert i < |mid| ==> now[i] == mid[i];
      }
    }
  }

  lemma {:induction false} WentOne(was: seq<Call>, c: Call)
    ensures Went(was, was + [c], c.ok)
  {
    assert (was + [c])[|was|] == c;
  }

  /** The classes the transformer has made new bytecode for since `was`. */
  function MadeSince(was: seq<Call>, now: seq<Call>): set<string> {
    set i | |was| <= i < |now| && now[i].ok && now[i].need.Transformation? :: now[i].need.cls
  }

  /** The classes the JVM has taken new bytecode for since `was`. */
  function TakenSince(was: seq<Call>, now: seq<Call>): set<string> {
    set i | |was| <= i < |now| && now[i].ok && now[i].need.Installation? :: now[i].need.cls
  }

  lemma {:induction false} SinceNothing(was: seq<Call>)
    ensures MadeSince(was, was) == {} && TakenSince(was, was) == {}
  {
  }

  lemma {:induction false} SinceOne(was: seq<Call>, now: seq<Call>, c: Call)
    requires was <= now
    ensures MadeSince(was, now + [c]) ==
            MadeSince(was, now) + if c.ok && c.need.Transformation? then {c.need.cls} else {}
    ensures TakenSince(was, now + [c]) ==
            TakenSince(was, now) + if c.ok && c.need.Installation? then {c.need.cls} else {}
  {
    var all := now + [c];
    assert all[|now|] == c && forall i :: 0 <= i < |now| ==> all[i] == now[i];
    assert forall x :: x in MadeSince(was, now) ==> x in MadeSince(was, all);
    assert forall x :: x in TakenSince(was, now) ==> x in TakenSince(was, all);
  }

  /** What is asked to reinstall one class: new bytecode, and if there is any, to install it. */
  function AskFor(cls: string, made: bool, taken: bool): seq<Call> {
    [Call(Transformation(cls), made)] + if made then [Call(Installation(cls), taken)] else []
  }

  lemma {:induction false} AskedForClass(was: seq<Call>, cls: string, made: bool, taken: bool)
    ensures var now := was + AskFor(cls, made, taken);
            && Went(was, now, made && taken)
            && MadeSince(was, now) == (if made then {cls} else {})
            && TakenSince(was, now) == (if made && taken then {cls} else {})
  {
    hide Went, MadeSince, TakenSince;
    var c, d := Call(Transformation(cls), made), Call(Installation(cls), taken);
    WentOne(was, c);
    SinceNothing(was);
    SinceOne(was, was, c);
    if made {
      WentOne(was + [c], d);
      WentOn(was, was + [c], was + [c] + [d], made, taken);
      SinceOne(was, was + [c], d);
      assert was + AskFor(cls, made, taken) == was + [c] + [d];
    } else {
      assert was + AskFor(cls, made, taken) == was + [c];
    }
  }

  lemma {:induction false} AskedForMore(was: seq<Call>, now: seq<Call>, cls: string, made: bool, taken: bool)
    requires was <= now
    ensures var next := now + AskFor(cls, made, taken);
            && MadeSince(was, next) == MadeSince(was, now) + (if made then {cls} else {})
            && TakenSince(was, next) == TakenSince(was, now) + (if made && taken then {cls} else {})
  {
    hide MadeSince, TakenSince;
    var c, d := Call(Transformation(cls), made), Call(Installation(cls), taken);
    SinceOne(was, now, c);
    if made {
      SinceOne(was, now + [c], d);
      assert now + AskFor(cls, made, taken) == now + [c] + [d];
    } else {
      assert now + AskFor(cls, made, taken) == now + [c];
    }
  }
}
