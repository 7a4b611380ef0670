/**
 The class-file method extractor: walks the constant pool, the fields and the
 methods of a class file (sections 4.1 and 4.4 to 4.7 of the Java Virtual
 Machine Specification) and lists `name:descriptor` for every method.
 */
module ClassFile {
  import opened Prelude
  import opened Bytes
  import opened Environment

  const CP_UTF8: byte := 1
  const CP_LONG: byte := 5
  const CP_DOUBLE: byte := 6
  const COLON: byte := 58

  /** A string with its length field, sixteen bits wide. */
  datatype PString = PString(size: nat, str: seq<byte>)

  type Pool = map<nat, seq<byte>>

  // ----- what the extractor computes -----

  /** Body size of the constants other than Utf8; zero for an unknown tag. */
  function FixedSize(tag: byte): nat {
    if tag in {3, 4} then 4
    else if tag in {CP_LONG, CP_DOUBLE} then 8
    else if tag in {7, 8, 16, 19, 20} then 2
    else if tag in {9, 10, 11, 12, 17, 18} then 4
    else if tag == 15 then 3
    else 0
  }

  predicate Wide(tag: byte) { tag == CP_LONG || tag == CP_DOUBLE }

  /** Bytes the body of a constant takes, if it is whole. */
  function CpBody(data: seq<byte>, pos: nat, tag: byte): (r: Option<nat>)
    requires pos <= |data|
    ensures r.Some? ==> pos + r.value <= |data| && (tag == CP_UTF8 ==> r.value >= 2)
  {
    if tag == CP_UTF8 then
      if |data| - pos < 2 || |data| - pos < 2 + U2At(data, pos) then None else Some(2 + U2At(data, pos))
    else if FixedSize(tag) == 0 || |data| - pos < FixedSize(tag) then None
    else Some(FixedSize(tag))
  }

  /** The pool entries from number `i` on; `pool` holds the Utf8 entries so far. */
  function PoolFrom(data: seq<byte>, pos: nat, i: nat, count: nat, pool: Pool): (r: Option<(nat, Pool)>)
    requires pos <= |data|
    ensures r.Some? ==> r.value.0 <= |data|
    decreases count - i
  {
    if i >= count then Some((pos, pool))
    else if pos >= |data| then None
    else
      var tag := data[pos];
      var body := CpBody(data, pos + 1, tag);
      if body.None? then None
      else
        PoolFrom(data, pos + 1 + body.value, if Wide(tag) then i + 2 else i + 1, count,
                 if tag == CP_UTF8 then pool[i := data[pos + 3..pos + 1 + body.value]] else pool)
  }

  /** The advance over one attribute is computed in 32 bits. */
  function AttributeAdvance(len: nat): nat { (6 + len) % 0x1_0000_0000 }

  function AttributesFrom(data: seq<byte>, pos: nat, count: nat): (r: Option<nat>)
    requires pos <= |data|
    ensures r.Some? ==> r.value <= |data|
    decreases count
  {
    if count == 0 then Some(pos)
    else if pos + 6 > |data| then None
    else
      var next := pos + AttributeAdvance(U4At(data, pos + 2));
      if next > |data| then None else AttributesFrom(data, next, count - 1)
  }

  function Attributes(data: seq<byte>, pos: nat): (r: Option<nat>)
    requires pos <= |data|
    ensures r.Some? ==> r.value <= |data|
  {
    if pos + 2 > |data| then None else AttributesFrom(data, pos + 2, U2At(data, pos))
  }

  function FieldsFrom(data: seq<byte>, pos: nat, count: nat): (r: Option<nat>)
    requires pos <= |data|
    ensures r.Some? ==> r.value <= |data|
    decreases count
  {
    if count == 0 then Some(pos)
    else if pos + 6 > |data| then None
    else
      var next := Attributes(data, pos + 6);
      if next.None? then None else FieldsFrom(data, next.value, count - 1)
  }

  /** A C string ends at its first zero byte. */
  function CStr(s: seq<byte>): (r: seq<byte>)
    ensures |r| <= |s| && r == s[..|r|] && 0 !in r && (|r| < |s| ==> s[|r|] == 0)
  {
    if s == [] || s[0] == 0 then [] else [s[0]] + CStr(s[1..])
  }

  function Joined(name: seq<byte>, desc: seq<byte>): seq<byte> { CStr(name) + [COLON] + CStr(desc) }

  function Listed(name: seq<byte>, desc: seq<byte>): PString {
    PString(|Joined(name, desc)| % 0x1_0000, Joined(name, desc))
  }

  /** One method adds at most one string: both its indices must name Utf8 entries. */
  function ListedAt(pool: Pool, count: nat, name: nat, desc: nat): seq<PString> {
    if name < count && desc < count && name in pool && desc in pool then [Listed(pool[name], pool[desc])] else []
  }

  function MethodsFrom(data: seq<byte>, pos: nat, count: nat, pool: Pool, poolCount: nat,
                       found: seq<PString>): (r: Option<seq<PString>>)
    requires pos <= |data|
    decreases count
  {
    if count == 0 then Some(found)
    else if pos + 6 > |data| then None
    else
      var next := Attributes(data, pos + 6);
      if next.None? then None
      else
        MethodsFrom(data, next.value, count - 1, pool, poolCount,
                    found + ListedAt(pool, poolCount, U2At(data, pos + 2), U2At(data, pos + 4)))
  }

  /** Where the fields begin: after the header, the pool and the interfaces. */
  function FieldsAt(data: seq<byte>, afterPool: nat): (r: Option<nat>)
    requires afterPool <= |data|
    ensures r.Some? ==> r.value <= |data|
  {
    if afterPool + 8 > |data| then None
    else
      var end := afterPool + 8 + 2 * U2At(data, afterPool + 6);
      if end > |data| then None else Some(end)
  }

  function Extracted(data: seq<byte>): Option<seq<PString>> {
    if |data| < 10 then None
    else
      var poolCount := U2At(data, 8);
      if poolCount < 1 then None
      else
        var pool := PoolFrom(data, 10, 1, poolCount, map[]);
        if pool.None? then None
        else
          var fields := FieldsAt(data, pool.value.0);
          if fields.None? || fields.value + 2 > |data| then None
          else
            var methods := FieldsFrom(data, fields.value + 2, U2At(data, fields.value));
            if methods.None? || methods.value + 2 > |data| then None
            else MethodsFrom(data, methods.value + 2, U2At(data, methods.value), pool.value.1, poolCount, [])
  }

  // ----- the loops of the source -----

  /** Both kinds of failure are the same answer, -1, in the source. */
  datatype Outcome = Done | Malformed | OutOfMemory

  class MethodList {
    var items: seq<PString>

    constructor ()
      ensures items == []
    {
      items := [];
    }

    method Add(p: PString, env: World) returns (ok: bool)
      modifies this, env
      ensures items == if ok then old(items) + [p] else old(items)
      ensures Went(old(env.log), env.log, ok)
    {
      ghost var log := env.log;
      ok := env.Ask(Memory);
      WentOne(log, Call(Memory, ok));
      if ok {
        items := items + [p];
      }
    }
  }

  method ParseCpBody(data: seq<byte>, pos: nat, tag: byte, env: World)
    returns (consumed: int, utf8: Option<seq<byte>>, outcome: Outcome)
    requires pos <= |data|
    modifies env
    ensures Went(old(env.log), env.log, outcome != OutOfMemory)
    ensures outcome == Malformed <==> CpBody(data, pos, tag).None?
    ensures outcome == Done ==> CpBody(data, pos, tag) == Some(consumed)
    ensures outcome != Done ==> consumed == -1
    ensures outcome == Done && tag == CP_UTF8 ==> utf8 == Some(data[pos + 2..pos + consumed])
    ensures tag != CP_UTF8 ==> utf8 == None
    ensures tag !in {1, 3, 4, 5, 6, 7, 8, 9, 10, 11, 12, 15, 16, 17, 18, 19, 20} ==> outcome == Malformed
  {
    consumed, utf8, outcome := -1, None, Malformed;
    ghost var log := env.log;
    WentNowhere(log);
    if tag == CP_UTF8 {
      if |data| - pos < 2 {
        return;
      }
      var len := U2At(data, pos);
      if |data| - pos < 2 + len {
        return;
      }
      var ok := env.Ask(Memory);
      WentOne(log, Call(Memory, ok));
      if !ok {
        outcome := OutOfMemory;
        return;
      }
      return 2 + len, Some(data[pos + 2..pos + 2 + len]), Done;
    }
    var size := FixedSize(tag);
    if size == 0 || |data| - pos < size {
      return;
    }
    return size, None, Done;
  }

  method SkipAttributes(data: seq<byte>, start: nat) returns (r: Option<nat>)
    requires start <= |data|
    ensures r == Attributes(data, start)
  {
    if start + 2 > |data| {
      return None;
    }
    var count := U2At(data, start);
    var pos: nat := start + 2;
    for i := 0 to count
      invariant pos <= |data| && AttributesFrom(data, pos, count - i) == Attributes(data, start)
    {
      if pos + 6 > |data| {
        return None;
      }
      pos := pos + AttributeAdvance(U4At(data, pos + 2));
      if pos > |data| {
        return None;
      }
    }
    r := Some(pos);
  }

  /** The array of Utf8 entries is `pool`, as far as it is filled. */
  ghost predicate Holds(utf8: seq<Option<seq<byte>>>, pool: Pool) {
    && (forall k :: 0 <= k < |utf8| ==> utf8[k] == if k in pool then Some(pool[k]) else None)
    && (forall k :: k in pool ==> 0 < k < |utf8|)
  }

  method ParsePool(data: seq<byte>, count: nat, utf8: array<Option<seq<byte>>>, env: World)
    returns (pos: nat, outcome: Outcome, ghost pool: Pool)
    requires |data| >= 10 && count >= 1 && utf8.Length == count && Holds(utf8[..], map[])
    modifies utf8, env
    ensures Went(old(env.log), env.log, outcome != OutOfMemory)
    ensures outcome == Malformed ==> PoolFrom(data, 10, 1, count, map[]).None?
    ensures outcome == Done ==> PoolFrom(data, 10, 1, count, map[]) == Some((pos, pool)) && Holds(utf8[..], pool)
  {
    hide CpBody, Went;
    ghost var log := env.log;
    WentNowhere(log);
    pos, pool, outcome := 10, map[], Done;
    var i := 1;
    while i < count
      invariant pos <= |data| && 1 <= i && Holds(utf8[..], pool) && forall k :: k in pool ==> k < i
      invariant PoolFrom(data, 10, 1, count, map[]) == PoolFrom(data, pos, i, count, pool)
      invariant Went(log, env.log, true)
    {
      if pos >= |data| {
        outcome := Malformed;
        return;
      }
      var tag := data[pos];
      ghost var before := env.log;
      var consumed, bytes, status := ParseCpBody(data, pos + 1, tag, env);
      WentOn(log, before, env.log, true, status != OutOfMemory);
      if status != Done {
        outcome := status;
        return;
      }
      if tag == CP_UTF8 {
        utf8[i] := bytes;
        pool := pool[i := bytes.value];
      }
      pos := pos + 1 + consumed;
      i := if Wide(tag) then i + 2 else i + 1;
    }
  }

  method SkipFields(data: seq<byte>, start: nat, count: nat) returns (r: Option<nat>)
    requires start <= |data|
    ensures r == FieldsFrom(data, start, count)
  {
    hide Attributes;
    var pos: nat := start;
    for i := 0 to count
      invariant pos <= |data| && FieldsFrom(data, pos, count - i) == FieldsFrom(data, start, count)
    {
      if pos + 6 > |data| {
        return None;
      }
      var next := SkipAttributes(data, pos + 6);
      if next.None? {
        return None;
      }
      pos := next.value;
    }
    r := Some(pos);
  }

  method Strlen(s: seq<byte>) returns (n: nat)
    ensures n == |CStr(s)|
  {
    n := 0;
    while n < |s| && s[n] != 0
      invariant n <= |CStr(s)|
    {
      n := n + 1;
    }
  }

  lemma {:induction false} NoMethods(data: seq<byte>, pool: Pool, poolCount: nat)
    ensures forall pos, found :: 0 <= pos <= |data| ==> MethodsFrom(data, pos, 0, pool, poolCount, found) == Some(found)
  {
  }

  lemma {:induction false} NextMethod(data: seq<byte>, pos: nat, count: nat, pool: Pool, poolCount: nat,
                                      found: seq<PString>)
    requires pos <= |data| && count > 0
    ensures pos + 6 > |data| || Attributes(data, pos + 6).None? ==>
              MethodsFrom(data, pos, count, pool, poolCount, found).None?
    ensures pos + 6 <= |data| && Attributes(data, pos + 6).Some? ==>
              MethodsFrom(data, pos, count, pool, poolCount, found) ==
              MethodsFrom(data, Attributes(data, pos + 6).value, count - 1, pool, poolCount,
                          found + ListedAt(pool, poolCount, U2At(data, pos + 2), U2At(data, pos + 4)))
  {
  }

  /** Memory for the string, and room for it in the list. */
  method AddString(methods: MethodList, p: PString, ghost log: seq<Call>, env: World) returns (ok: bool)
    requires Went(log, env.log, true)
    modifies methods, env
    ensures methods.items == if ok then old(methods.items) + [p] else old(methods.items)
    ensures Went(log, env.log, ok)
  {
    hide Went;
    ghost var before := env.log;
    ok := env.Ask(Memory);
    WentOne(before, Call(Memory, ok));
    WentOn(log, before, env.log, true, ok);
    if ok {
      ghost var mid := env.log;
      ok := methods.Add(p, env);
      WentOn(log, mid, env.log, true, ok);
    }
  }

  method ReadMethods(data: seq<byte>, start: nat, count: nat, utf8: array<Option<seq<byte>>>, ghost pool: Pool,
                     methods: MethodList, env: World)
    returns (outcome: Outcome)
    requires start <= |data| && Holds(utf8[..], pool) && methods.items == []
    modifies methods, env
    ensures Went(old(env.log), env.log, outcome != OutOfMemory)
    ensures outcome == Done ==> MethodsFrom(data, start, count, pool, utf8.Length, []) == Some(methods.items)
    ensures outcome == Malformed ==> MethodsFrom(data, start, count, pool, utf8.Length, []).None?
    ensures outcome != Done ==> methods.items == []
  {
    hide Attributes, CStr, MethodsFrom, U2At, Went;
    ghost var log := env.log;
    WentNowhere(log);
    NoMethods(data, pool, utf8.Length);
    var pos: nat := start;
    for i := 0 to count
      invariant pos <= |data| && Went(log, env.log, true)
      invariant MethodsFrom(data, start, count, pool, utf8.Length, []) ==
                MethodsFrom(data, pos, count - i, pool, utf8.Length, methods.items)
    {
      NextMethod(data, pos, count - i, pool, utf8.Length, methods.items);
      if pos + 6 > |data| {
        methods.items := [];
        return Malformed;
      }
      var nameIdx, descIdx := U2At(data, pos + 2), U2At(data, pos + 4);
      var next := SkipAttributes(data, pos + 6);
      if next.None? {
        methods.items := [];
        return Malformed;
      }
      pos := next.value;
      if nameIdx >= utf8.Length || descIdx >= utf8.Length || utf8[nameIdx].None? || utf8[descIdx].None? {
        assert methods.items + [] == methods.items;
        continue;
      }
      var name, desc := utf8[nameIdx].value, utf8[descIdx].value;
      var nameLen := Strlen(name);
      var descLen := Strlen(desc);
      var len := nameLen + 1 + descLen;
      var ok := AddString(methods, PString(len % 0x1_0000, name[..nameLen] + [COLON] + desc[..descLen]), log, env);
      if !ok {
        methods.items := [];
        return OutOfMemory;
      }
    }
    outcome := Done;
  }

  /** `bc_extract_methods` on an empty list: filled on success, still empty on failure. */
  method ExtractMethods(data: seq<byte>, methods: MethodList, env: World) returns (outcome: Outcome)
    requires methods.items == []
    modifies methods, env
    ensures Went(old(env.log), env.log, outcome != OutOfMemory)
    ensures outcome == Done ==> Extracted(data) == Some(methods.items)
    ensures outcome == Malformed ==> Extracted(data).None?
    ensures outcome != Done ==> methods.items == []
  {
    hide PoolFrom, FieldsFrom, MethodsFrom, Went;
    ghost var log := env.log;
    WentNowhere(log);
    if |data| < 10 {
      return Malformed;
    }
    var poolCount := U2At(data, 8);
    if poolCount < 1 {
      return Malformed;
    }
    var ok := env.Ask(Memory);
    WentOne(log, Call(Memory, ok));
    if !ok {
      return OutOfMemory;
    }
    ghost var asked := env.log;
    var utf8 := new Option<seq<byte>>[poolCount](_ => None);
    var pos, status, pool := ParsePool(data, poolCount, utf8, env);
    WentOn(log, asked, env.log, true, status != OutOfMemory);
    if status != Done {
      return status;
    }
    if pos + 8 > |data| {
      return Malformed;
    }
    pos := pos + 8 + 2 * U2At(data, pos + 6);
    if pos > |data| || pos + 2 > |data| {
      return Malformed;
    }
    var fields := SkipFields(data, pos + 2, U2At(data, pos));
    if fields.None? || fields.value + 2 > |data| {
      return Malformed;
    }
    ghost var parsed := env.log;
    outcome := ReadMethods(data, fields.value + 2, U2At(data, fields.value), utf8, pool, methods, env);
    WentOn(log, parsed, env.log, true, outcome != OutOfMemory);
  }
}
