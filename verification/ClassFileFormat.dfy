/**
 Class files as structures and as bytes (sections 4.1 and 4.4 to 4.7 of the
 Java Virtual Machine Specification), and the round trip: what the extractor
 lists for an encoded class is what the structure says.
 */
module ClassFileFormat {
  import opened Prelude
  import opened Bytes
  import opened ClassFile

  /** The kinds of constants of section 4.4; numbers are pool numbers unless they say otherwise. */
  datatype Constant =
    | Utf8(bytes: seq<byte>)
    | Integer(bits: nat)
    | Float(bits: nat)
    | Long(high: nat, low: nat)
    | Double(high: nat, low: nat)
    | ClassRef(name: nat)
    | StringRef(utf8: nat)
    | Fieldref(owner: nat, member: nat)
    | Methodref(owner: nat, member: nat)
    | InterfaceMethodref(owner: nat, member: nat)
    | NameAndType(name: nat, desc: nat)
    | MethodHandle(kind: byte, target: nat)
    | MethodType(desc: nat)
    | Dynamic(bootstrap: nat, member: nat)
    | InvokeDynamic(bootstrap: nat, member: nat)
    | Module(name: nat)
    | Package(name: nat)

  datatype Attribute = Attribute(name: nat, info: seq<byte>)

  datatype Member = Member(access: nat, name: nat, desc: nat, attributes: seq<Attribute>)

  datatype Class = Class(
    minor: nat,
    major: nat,
    pool: seq<Constant>,
    access: nat,
    thisClass: nat,
    superClass: nat,
    interfaces: seq<nat>,
    fields: seq<Member>,
    methods: seq<Member>)

  // ----- well-formed structures -----

  predicate Short(n: nat) { n < 0x1_0000 }

  predicate Word(n: nat) { n < 0x1_0000_0000 }

  /** The fields fit their places. */
  predicate ConstantOk(c: Constant) {
    match c
    case Utf8(bytes) => Short(|bytes|)
    case Integer(bits) => Word(bits)
    case Float(bits) => Word(bits)
    case Long(high, low) => Word(high) && Word(low)
    case Double(high, low) => Word(high) && Word(low)
    case ClassRef(name) => Short(name)
    case StringRef(utf8) => Short(utf8)
    case Fieldref(owner, member) => Short(owner) && Short(member)
    case Methodref(owner, member) => Short(owner) && Short(member)
    case InterfaceMethodref(owner, member) => Short(owner) && Short(member)
    case NameAndType(name, desc) => Short(name) && Short(desc)
    case MethodHandle(_, target) => Short(target)
    case MethodType(desc) => Short(desc)
    case Dynamic(bootstrap, member) => Short(bootstrap) && Short(member)
    case InvokeDynamic(bootstrap, member) => Short(bootstrap) && Short(member)
    case Module(name) => Short(name)
    case Package(name) => Short(name)
  }

  /** The largest attributes are longer than the extractor can step over. */
  predicate AttributeOk(a: Attribute) { a.name < 0x1_0000 && |a.info| < 0x1_0000_0000 - 6 }

  predicate MemberOk(m: Member) {
    && m.access < 0x1_0000 && m.name < 0x1_0000 && m.desc < 0x1_0000 && |m.attributes| < 0x1_0000
    && forall a :: a in m.attributes ==> AttributeOk(a)
  }

  /** Long and Double take two numbers. */
  function Width(c: Constant): nat { if c.Long? || c.Double? then 2 else 1 }

  function Slots(pool: seq<Constant>): nat { if pool == [] then 0 else Width(pool[0]) + Slots(pool[1..]) }

  predicate WellFormed(c: Class) {
    && Short(c.minor) && Short(c.major) && Short(c.access) && Short(c.thisClass) && Short(c.superClass)
    && Slots(c.pool) + 1 < 0x1_0000 && (forall e :: e in c.pool ==> ConstantOk(e))
    && |c.interfaces| < 0x1_0000 && (forall k :: 0 <= k < |c.interfaces| ==> c.interfaces[k] < 0x1_0000)
    && |c.fields| < 0x1_0000 && (forall m :: m in c.fields ==> MemberOk(m))
    && |c.methods| < 0x1_0000 && (forall m :: m in c.methods ==> MemberOk(m))
  }

  // ----- what a structure lists -----

  /** The constant with number `k` when the first of `pool` has number `i`. */
  function Numbered(pool: seq<Constant>, i: nat, k: nat): Option<Constant> {
    if pool == [] || k < i then None
    else if k == i then Some(pool[0])
    else Numbered(pool[1..], i + Width(pool[0]), k)
  }

  function NameOf(c: Class, k: nat): Option<seq<byte>> {
    match Numbered(c.pool, 1, k)
    case Some(Utf8(bytes)) => Some(bytes)
    case _ => None
  }

  function MethodString(c: Class, m: Member): seq<PString> {
    if NameOf(c, m.name).None? || NameOf(c, m.desc).None? then []
    else [Listed(NameOf(c, m.name).value, NameOf(c, m.desc).value)]
  }

  /** `name:descriptor` of every method, in order. */
  function MethodStrings(c: Class, methods: seq<Member>): seq<PString> {
    if methods == [] then [] else MethodString(c, methods[0]) + MethodStrings(c, methods[1..])
  }

  // ----- the bytes of a structure -----

  function EncodeConstant(c: Constant): seq<byte>
    requires ConstantOk(c)
  {
    match c
    case Utf8(bytes) => [1] + (U2(|bytes|) + bytes)
    case Integer(bits) => [3] + U4(bits)
    case Float(bits) => [4] + U4(bits)
    case Long(high, low) => [5] + (U4(high) + U4(low))
    case Double(high, low) => [6] + (U4(high) + U4(low))
    case ClassRef(name) => [7] + U2(name)
    case StringRef(utf8) => [8] + U2(utf8)
    case Fieldref(owner, member) => [9] + (U2(owner) + U2(member))
    case Methodref(owner, member) => [10] + (U2(owner) + U2(member))
    case InterfaceMethodref(owner, member) => [11] + (U2(owner) + U2(member))
    case NameAndType(name, desc) => [12] + (U2(name) + U2(desc))
    case MethodHandle(kind, target) => [15] + ([kind] + U2(target))
    case MethodType(desc) => [16] + U2(desc)
    case Dynamic(bootstrap, member) => [17] + (U2(bootstrap) + U2(member))
    case InvokeDynamic(bootstrap, member) => [18] + (U2(bootstrap) + U2(member))
    case Module(name) => [19] + U2(name)
    case Package(name) => [20] + U2(name)
  }

  function EncodePool(pool: seq<Constant>): seq<byte>
    requires forall e :: e in pool ==> ConstantOk(e)
  {
    if pool == [] then [] else EncodeConstant(pool[0]) + EncodePool(pool[1..])
  }

  function EncodeAttribute(a: Attribute): seq<byte>
    requires a.name < 0x1_0000 && |a.info| < 0x1_0000_0000
  {
    U2(a.name) + (U4(|a.info|) + a.info)
  }

  function EncodeAttributes(attributes: seq<Attribute>): seq<byte>
    requires forall a :: a in attributes ==> AttributeOk(a)
  {
    if attributes == [] then []
    else
      assert AttributeOk(attributes[0]);
      EncodeAttribute(attributes[0]) + EncodeAttributes(attributes[1..])
  }

  function EncodeMember(m: Member): seq<byte>
    requires MemberOk(m)
  {
    (U2(m.access) + (U2(m.name) + U2(m.desc))) + (U2(|m.attributes|) + EncodeAttributes(m.attributes))
  }

  function EncodeMembers(members: seq<Member>): seq<byte>
    requires forall m :: m in members ==> MemberOk(m)
  {
    if members == [] then [] else EncodeMember(members[0]) + EncodeMembers(members[1..])
  }

  function EncodeInterfaces(interfaces: seq<nat>): (r: seq<byte>)
    requires forall k :: 0 <= k < |interfaces| ==> interfaces[k] < 0x1_0000
    ensures |r| == 2 * |interfaces|
  {
    if interfaces == [] then [] else U2(interfaces[0]) + EncodeInterfaces(interfaces[1..])
  }

  /** The magic number and the versions. */
  function Header(c: Class): (r: seq<byte>)
    requires WellFormed(c)
    ensures |r| == 8
  {
    U4(0xCAFE_BABE) + (U2(c.minor) + U2(c.major))
  }

  function Names(c: Class): (r: seq<byte>)
    requires WellFormed(c)
    ensures |r| == 6
  {
    U2(c.access) + (U2(c.thisClass) + U2(c.superClass))
  }

  function Encode(c: Class): seq<byte>
    requires WellFormed(c)
  {
    Header(c) + (U2(Slots(c.pool) + 1) + (EncodePool(c.pool) +
    (Names(c) + (U2(|c.interfaces|) + (EncodeInterfaces(c.interfaces) +
    (U2(|c.fields|) + (EncodeMembers(c.fields) +
    (U2(|c.methods|) + EncodeMembers(c.methods)))))))))
  }

  // ----- parsing one part of the encoding -----

  /** The Utf8 entries of `pool`, numbered from `i`, added to `before`. */
  function Entries(pool: seq<Constant>, i: nat, before: Pool): Pool {
    if pool == [] then before
    else Entries(pool[1..], i + Width(pool[0]), if pool[0].Utf8? then before[i := pool[0].bytes] else before)
  }

  lemma {:induction false} ParsesConstant(data: seq<byte>, pos: nat, c: Constant)
    requires ConstantOk(c) && At(data, pos, EncodeConstant(c))
    ensures pos < |data| && (data[pos] == CP_UTF8 <==> c.Utf8?) && (Wide(data[pos]) <==> Width(c) == 2)
    ensures CpBody(data, pos + 1, data[pos]) == Some(|EncodeConstant(c)| - 1)
    ensures c.Utf8? ==> data[pos + 3..pos + |EncodeConstant(c)|] == c.bytes
  {
    var e := EncodeConstant(c);
    AtInside(data, pos, e);
    assert data[pos] == data[pos..pos + |e|][0] == e[0];
    if c.Utf8? {
      AtSplit(data, pos, [1], U2(|c.bytes|) + c.bytes);
      AtSplit(data, pos + 1, U2(|c.bytes|), c.bytes);
      ReadsU2(data, pos + 1, |c.bytes|);
    }
  }

  lemma {:induction false} ParsesPool(data: seq<byte>, pos: nat, pool: seq<Constant>, i: nat, count: nat, before: Pool)
    requires (forall e :: e in pool ==> ConstantOk(e)) && At(data, pos, EncodePool(pool)) && count == i + Slots(pool)
    ensures PoolFrom(data, pos, i, count, before) == Some((pos + |EncodePool(pool)|, Entries(pool, i, before)))
    decreases |pool|
  {
    hide CpBody, At, EncodeConstant;
    if pool != [] {
      var c := pool[0];
      AtSplit(data, pos, EncodeConstant(c), EncodePool(pool[1..]));
      ParsesConstant(data, pos, c);
      ParsesPool(data, pos + |EncodeConstant(c)|, pool[1..], i + Width(c), count, if c.Utf8? then before[i := c.bytes]
                                                                                  else before);
    } else {
      assert At(data, pos, []);
      AtInside(data, pos, []);
    }
  }

  /** Stepping over one attribute works if and only if its length plus the six
      bytes before it fit in 32 bits. */
  lemma {:induction false} SkipsAttributeIff(data: seq<byte>, pos: nat, a: Attribute)
    requires a.name < 0x1_0000 && |a.info| < 0x1_0000_0000 && At(data, pos, EncodeAttribute(a))
    ensures AttributesFrom(data, pos, 1) == Some(pos + |EncodeAttribute(a)|) <==> AttributeOk(a)
    ensures AttributeOk(a) <==> 6 + |a.info| < 0x1_0000_0000
    ensures 6 + |a.info| >= 0x1_0000_0000 ==>
              AttributesFrom(data, pos, 1) == Some(pos + |EncodeAttribute(a)| - 0x1_0000_0000)
    ensures pos + 6 <= |data| && U4At(data, pos + 2) == |a.info|
  {
    AtSplit(data, pos, U2(a.name), U4(|a.info|) + a.info);
    AtSplit(data, pos + 2, U4(|a.info|), a.info);
    ReadsU4(data, pos + 2, |a.info|);
    var next := pos + AttributeAdvance(|a.info|);
    assert next <= |data| ==> AttributesFrom(data, next, 0) == Some(next);
  }

  lemma {:induction false} ParsesAttributes(data: seq<byte>, pos: nat, attributes: seq<Attribute>)
    requires (forall a :: a in attributes ==> AttributeOk(a)) && At(data, pos, EncodeAttributes(attributes))
    ensures pos <= |data| && AttributesFrom(data, pos, |attributes|) == Some(pos + |EncodeAttributes(attributes)|)
    decreases |attributes|
  {
    hide EncodeAttribute, At;
    AtInside(data, pos, EncodeAttributes(attributes));
    if attributes == [] {
    } else {
      var a := attributes[0];
      assert AttributeOk(a);
      AtSplit(data, pos, EncodeAttribute(a), EncodeAttributes(attributes[1..]));
      SkipsAttributeIff(data, pos, a);
      AttributeSize(a);
      ParsesAttributes(data, pos + |EncodeAttribute(a)|, attributes[1..]);
    }
  }

  lemma {:induction false} AttributeSize(a: Attribute)
    requires a.name < 0x1_0000 && |a.info| < 0x1_0000_0000
    ensures |EncodeAttribute(a)| == 6 + |a.info|
  {
  }

  lemma {:induction false} ParsesMember(data: seq<byte>, pos: nat, m: Member)
    requires MemberOk(m) && At(data, pos, EncodeMember(m))
    ensures pos + 6 <= |data| && U2At(data, pos + 2) == m.name && U2At(data, pos + 4) == m.desc
    ensures ClassFile.Attributes(data, pos + 6) == Some(pos + |EncodeMember(m)|)
  {
    hide AttributesFrom, EncodeAttributes;
    AtSplit(data, pos, U2(m.access) + (U2(m.name) + U2(m.desc)), U2(|m.attributes|) + EncodeAttributes(m.attributes));
    AtSplit(data, pos, U2(m.access), U2(m.name) + U2(m.desc));
    AtSplit(data, pos + 2, U2(m.name), U2(m.desc));
    AtSplit(data, pos + 6, U2(|m.attributes|), EncodeAttributes(m.attributes));
    ReadsU2(data, pos + 2, m.name);
    ReadsU2(data, pos + 4, m.desc);
    ReadsU2(data, pos + 6, |m.attributes|);
    ParsesAttributes(data, pos + 8, m.attributes);
  }

  lemma {:induction false} ParsesFields(data: seq<byte>, pos: nat, members: seq<Member>)
    requires (forall m :: m in members ==> MemberOk(m)) && At(data, pos, EncodeMembers(members))
    ensures pos <= |data| && FieldsFrom(data, pos, |members|) == Some(pos + |EncodeMembers(members)|)
    decreases |members|
  {
    hide EncodeMember, ClassFile.Attributes, MemberOk;
    if members == [] {
    } else {
      AtSplit(data, pos, EncodeMember(members[0]), EncodeMembers(members[1..]));
      ParsesMember(data, pos, members[0]);
      ParsesFields(data, pos + |EncodeMember(members[0])|, members[1..]);
    }
  }

  lemma {:induction false} ParsesMethods(data: seq<byte>, pos: nat, c: Class, methods: seq<Member>, pool: Pool,
                                         found: seq<PString>)
    requires (forall m :: m in methods ==> MemberOk(m)) && At(data, pos, EncodeMembers(methods))
    requires forall k: nat :: (k < Slots(c.pool) + 1 && k in pool) == NameOf(c, k).Some?
    requires forall k: nat :: NameOf(c, k).Some? ==> pool[k] == NameOf(c, k).value
    ensures pos <= |data| && MethodsFrom(data, pos, |methods|, pool, Slots(c.pool) + 1, found) ==
            Some(found + MethodStrings(c, methods))
    decreases |methods|
  {
    hide EncodeMember, ClassFile.Attributes, MemberOk, NameOf, MethodString, ListedAt, Slots, At;
    if methods == [] {
      AtInside(data, pos, []);
      assert found + [] == found;
    } else {
      var m := methods[0];
      AtSplit(data, pos, EncodeMember(m), EncodeMembers(methods[1..]));
      ParsesMember(data, pos, m);
      SameString(c, m, pool);
      ParsesMethods(data, pos + |EncodeMember(m)|, c, methods[1..], pool, found + MethodString(c, m));
      assert found + MethodString(c, m) + MethodStrings(c, methods[1..]) == found + MethodStrings(c, methods);
    }
  }

  lemma {:induction false} SameString(c: Class, m: Member, pool: Pool)
    requires forall k: nat :: (k < Slots(c.pool) + 1 && k in pool) == NameOf(c, k).Some?
    requires forall k: nat :: NameOf(c, k).Some? ==> pool[k] == NameOf(c, k).value
    ensures ListedAt(pool, Slots(c.pool) + 1, m.name, m.desc) == MethodString(c, m)
  {
    hide NameOf, Listed, Slots;
  }

  // ----- numbering -----

  lemma {:induction false} NumberedEntries(pool: seq<Constant>, i: nat, before: Pool, k: nat)
    requires forall j :: j in before ==> j < i
    ensures k in Entries(pool, i, before) <==>
            k in before || (Numbered(pool, i, k).Some? && Numbered(pool, i, k).value.Utf8?)
    ensures k in Entries(pool, i, before) ==>
              Entries(pool, i, before)[k] == if k < i then before[k] else Numbered(pool, i, k).value.bytes
    ensures k >= i + Slots(pool) ==> Numbered(pool, i, k).None?
    decreases |pool|
  {
    if pool == [] {
    } else {
      var after := if pool[0].Utf8? then before[i := pool[0].bytes] else before;
      NumberedEntries(pool[1..], i + Width(pool[0]), after, k);
    }
  }

  lemma {:induction false} PoolNames(c: Class)
    ensures var pool := Entries(c.pool, 1, map[]);
            && (forall k: nat :: (k < Slots(c.pool) + 1 && k in pool) == NameOf(c, k).Some?)
            && (forall k: nat :: NameOf(c, k).Some? ==> pool[k] == NameOf(c, k).value)
  {
    var pool := Entries(c.pool, 1, map[]);
    forall k: nat
      ensures (k < Slots(c.pool) + 1 && k in pool) == NameOf(c, k).Some?
      ensures NameOf(c, k).Some? ==> pool[k] == NameOf(c, k).value
    {
      NumberedEntries(c.pool, 1, map[], k);
    }
  }

  // ----- the round trip -----

  /** Extracting from the encoding of a class, followed by anything, lists its
      methods in order. */
  lemma {:induction false} ExtractsEncoded(c: Class, suffix: seq<byte>)
    requires WellFormed(c)
    ensures Extracted(Encode(c) + suffix) == Some(MethodStrings(c, c.methods))
  {
    hide PoolFrom, FieldsFrom, MethodsFrom, Entries, EncodePool, EncodeMembers, EncodeInterfaces, Slots, MethodStrings,
         NameOf, At;
    var data := Encode(c) + suffix;
    AtStart(Encode(c), suffix);
    var end := AfterPool(c, data);
    AfterInterfaces(c, data);
    var fields := end + 8 + 2 * |c.interfaces|;
    AfterFields(c, data);
    PoolNames(c);
    ParsesMethods(data, fields + 2 + |EncodeMembers(c.fields)| + 2, c, c.methods, Entries(c.pool, 1, map[]), []);
    assert [] + MethodStrings(c, c.methods) == MethodStrings(c, c.methods);
  }

  /** The parts after the pool. */
  function Tail(c: Class): seq<byte>
    requires WellFormed(c)
  {
    Names(c) + (U2(|c.interfaces|) + (EncodeInterfaces(c.interfaces) + MemberTail(c)))
  }

  function MemberTail(c: Class): seq<byte>
    requires WellFormed(c)
  {
    U2(|c.fields|) + (EncodeMembers(c.fields) + (U2(|c.methods|) + EncodeMembers(c.methods)))
  }

  lemma {:induction false} AfterPool(c: Class, data: seq<byte>) returns (end: nat)
    requires WellFormed(c) && At(data, 0, Encode(c))
    ensures end == 10 + |EncodePool(c.pool)| && |data| >= 10 && U2At(data, 8) == Slots(c.pool) + 1
    ensures PoolFrom(data, 10, 1, U2At(data, 8), map[]) == Some((end, Entries(c.pool, 1, map[])))
    ensures At(data, end, Tail(c))
  {
    hide PoolFrom, Entries, EncodePool, EncodeMembers, EncodeInterfaces, Slots, At;
    var count := U2(Slots(c.pool) + 1);
    AtSplit(data, 0, Header(c), count + (EncodePool(c.pool) + Tail(c)));
    AtSplit(data, 8, count, EncodePool(c.pool) + Tail(c));
    AtSplit(data, 10, EncodePool(c.pool), Tail(c));
    AtInside(data, 8, count);
    ReadsU2(data, 8, Slots(c.pool) + 1);
    ParsesPool(data, 10, c.pool, 1, Slots(c.pool) + 1, map[]);
    end := 10 + |EncodePool(c.pool)|;
  }

  lemma {:induction false} AfterInterfaces(c: Class, data: seq<byte>)
    requires WellFormed(c) && At(data, 10 + |EncodePool(c.pool)|, Tail(c))
    ensures var end, n := 10 + |EncodePool(c.pool)|, 2 * |c.interfaces|;
            end <= |data| && FieldsAt(data, end) == Some(end + 8 + n) && At(data, end + 8 + n, MemberTail(c))
  {
    hide EncodePool, EncodeMembers, EncodeInterfaces, Slots, At, MemberTail;
    var end := 10 + |EncodePool(c.pool)|;
    AtSplit(data, end, Names(c), U2(|c.interfaces|) + (EncodeInterfaces(c.interfaces) + MemberTail(c)));
    AtSplit(data, end + 6, U2(|c.interfaces|), EncodeInterfaces(c.interfaces) + MemberTail(c));
    AtSplit(data, end + 8, EncodeInterfaces(c.interfaces), MemberTail(c));
    AtInside(data, end + 6, U2(|c.interfaces|));
    AtInside(data, end + 8, EncodeInterfaces(c.interfaces));
    ReadsU2(data, end + 6, |c.interfaces|);
    InterfacesSize(c.interfaces);
  }

  lemma {:induction false} InterfacesSize(interfaces: seq<nat>)
    requires forall k :: 0 <= k < |interfaces| ==> interfaces[k] < 0x1_0000
    ensures |EncodeInterfaces(interfaces)| == 2 * |interfaces|
  {
  }

  lemma {:induction false} AfterFields(c: Class, data: seq<byte>)
    requires WellFormed(c) && At(data, 18 + |EncodePool(c.pool)| + 2 * |c.interfaces|, MemberTail(c))
    ensures var fields := 18 + |EncodePool(c.pool)| + 2 * |c.interfaces|;
            var methods := fields + 2 + |EncodeMembers(c.fields)|;
            && fields + 2 <= |data| && U2At(data, fields) == |c.fields|
            && FieldsFrom(data, fields + 2, |c.fields|) == Some(methods)
            && methods + 2 <= |data| && U2At(data, methods) == |c.methods|
            && At(data, methods + 2, EncodeMembers(c.methods))
  {
    hide EncodePool, EncodeMembers, Slots, At, FieldsFrom;
    var fields := 18 + |EncodePool(c.pool)| + 2 * |c.interfaces|;
    var methods := fields + 2 + |EncodeMembers(c.fields)|;
    AtSplit(data, fields, U2(|c.fields|), EncodeMembers(c.fields) + (U2(|c.methods|) + EncodeMembers(c.methods)));
    AtSplit(data, fields + 2, EncodeMembers(c.fields), U2(|c.methods|) + EncodeMembers(c.methods));
    AtSplit(data, methods, U2(|c.methods|), EncodeMembers(c.methods));
    AtInside(data, fields, U2(|c.fields|));
    AtInside(data, methods, U2(|c.methods|));
    ReadsU2(data, fields, |c.fields|);
    ReadsU2(data, methods, |c.methods|);
    ParsesFields(data, fields + 2, c.fields);
  }

  // ----- C strings and the length field -----

  lemma {:induction false} CStrWhole(s: seq<byte>)
    ensures CStr(s) == s <==> 0 !in s
    decreases |s|
  {
    if s == [] {
    } else {
      CStrWhole(s[1..]);
      assert s == [s[0]] + s[1..];
    }
  }

  /** A listed string is the two names around a colon, with the right length, if
      and only if neither holds a zero byte and together they fit in sixteen bits. */
  lemma {:induction false} ListedFaithfulIff(name: seq<byte>, desc: seq<byte>)
    ensures Listed(name, desc) == PString(|name| + 1 + |desc|, name + [0x3A] + desc) <==>
            0 !in name && 0 !in desc && |name| + 1 + |desc| < 0x1_0000
  {
    hide CStr;
    CStrWhole(name);
    CStrWhole(desc);
    var got, want := CStr(name) + [COLON] + CStr(desc), name + [COLON] + desc;
    if got == want {
      assert |CStr(name)| + |CStr(desc)| == |name| + |desc|;
      assert got[..|name|] == want[..|name|] && want[..|name|] == name;
      assert got[|name| + 1..] == want[|name| + 1..] && want[|name| + 1..] == desc;
    }
  }

  /** `name:descriptor` of one method with its true length; none unless both are in the pool. */
  function TrueString(c: Class, m: Member): seq<PString> {
    var name, desc := NameOf(c, m.name), NameOf(c, m.desc);
    if name.None? || desc.None? then []
    else [PString(|name.value| + 1 + |desc.value|, name.value + [0x3A] + desc.value)]
  }

  function TrueStrings(c: Class, methods: seq<Member>): seq<PString> {
    if methods == [] then [] else TrueString(c, methods[0]) + TrueStrings(c, methods[1..])
  }

  /** No zero byte in either name, and together with the colon they fit in sixteen bits. */
  predicate Listable(c: Class, m: Member) {
    var name, desc := NameOf(c, m.name), NameOf(c, m.desc);
    name.Some? && desc.Some? ==>
      0 !in name.value && 0 !in desc.value && |name.value| + 1 + |desc.value| < 0x1_0000
  }

  lemma {:induction false} MethodStringIff(c: Class, m: Member)
    ensures MethodString(c, m) == TrueString(c, m) <==> Listable(c, m)
    ensures |MethodString(c, m)| == |TrueString(c, m)|
  {
    hide Listed;
    var name, desc := NameOf(c, m.name), NameOf(c, m.desc);
    if name.Some? && desc.Some? {
      ListedFaithfulIff(name.value, desc.value);
      assert [Listed(name.value, desc.value)][0] == Listed(name.value, desc.value);
    }
  }

  lemma {:induction false} MethodStringsIff(c: Class, methods: seq<Member>)
    ensures MethodStrings(c, methods) == TrueStrings(c, methods) <==>
            forall k :: 0 <= k < |methods| ==> Listable(c, methods[k])
    decreases |methods|
  {
    hide MethodString, TrueString, Listable;
    if methods == [] {
    } else {
      var rest := methods[1..];
      var a, b, ra, rb := MethodString(c, methods[0]), TrueString(c, methods[0]),
                          MethodStrings(c, rest), TrueStrings(c, rest);
      MethodStringIff(c, methods[0]);
      MethodStringsIff(c, rest);
      assert a + ra == b + rb <==> a == b && ra == rb by {
        assert (a + ra)[..|a|] == a && (b + rb)[..|b|] == b;
        assert (a + ra)[|a|..] == ra && (b + rb)[|b|..] == rb;
      }
      assert forall k :: 0 < k < |methods| ==> methods[k] == rest[k - 1];
      assert forall k :: 0 <= k < |rest| ==> rest[k] == methods[k + 1];
    }
  }

  /** Extracting from the encoding of a class, followed by anything, gives the true
      list of its methods if and only if every one of them can be listed truly. */
  lemma {:induction false} ExtractsTrulyIff(c: Class, suffix: seq<byte>)
    requires WellFormed(c)
    ensures Extracted(Encode(c) + suffix) == Some(TrueStrings(c, c.methods)) <==>
            forall k :: 0 <= k < |c.methods| ==> Listable(c, c.methods[k])
  {
    hide Extracted, Encode, WellFormed, Listable;
    ExtractsEncoded(c, suffix);
    MethodStringsIff(c, c.methods);
  }
}
