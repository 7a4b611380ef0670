/**
 The list of instruments on the wire: the agent computes the size of the
 answer in one pass over the registry and writes it in a second one; the
 client walks over the entries.
 */
module InstrumentListing {
  import opened Prelude
  import opened Bytes
  import opened Wire

  datatype Instrument =
    | Method(id: nat, cls: seq<byte>, sig: seq<byte>, deferred: bool)
    | Line(id: nat, cls: seq<byte>, exitCls: seq<byte>, line: nat, exitLine: nat, enterDeferred: bool,
           exitDeferred: bool)
    | VarBind(id: nat, cls: seq<byte>, name: seq<byte>, line: nat, deferred: bool)

  /** What the types of the fields allow. */
  predicate Storable(i: Instrument) {
    && i.id < 0x1_0000_0000_0000_0000 && |i.cls| <= MAX_U16
    && match i
       case Method(_, _, sig, _) => |sig| <= MAX_U16
       case Line(_, _, exitCls, line, exitLine, _, _) => |exitCls| <= MAX_U16 && line <= MAX_U32 && exitLine <= MAX_U32
       case VarBind(_, _, name, _, _) => |name| <= MAX_U16
  }

  datatype Listed =
    | ListedMethod(id: nat, cls: seq<byte>, sig: seq<byte>, deferred: bool)
    | ListedLine(id: nat, cls: seq<byte>, exitCls: seq<byte>, line: nat, exitLine: nat, deferred: bool)

  /** What a client sees of an instrument; a line is deferred as long as one side is. */
  function Shown(i: Instrument): Listed
    requires !i.VarBind?
  {
    match i
    case Method(id, cls, sig, deferred) => ListedMethod(id, cls, sig, deferred)
    case Line(id, cls, exitCls, line, exitLine, en, ex) => ListedLine(id, cls, exitCls, line, exitLine, en || ex)
  }

  /** The entries a client may see. */
  function Visible(all: seq<Instrument>): seq<Listed> {
    if all == [] then []
    else if all[0].VarBind? then Visible(all[1..])
    else [Shown(all[0])] + Visible(all[1..])
  }

  predicate Sendable(l: Listed) {
    && l.id < 0x1_0000_0000_0000_0000 && |l.cls| <= MAX_U16
    && match l
       case ListedMethod(_, _, sig, _) => |sig| <= MAX_U16
       case ListedLine(_, _, exitCls, line, exitLine, _) =>
         |exitCls| <= MAX_U16 && line <= MAX_U32 && exitLine <= MAX_U32
  }

  // ----- bytes -----

  function Header(l: Listed): seq<byte>
    requires Sendable(l)
  {
    [if l.ListedMethod? then 0 else 1] + (L4(if l.deferred then 1 else 0) + L8(l.id))
  }

  function EncodeListed(l: Listed): (r: seq<byte>)
    requires Sendable(l)
  {
    match l
    case ListedMethod(_, cls, sig, _) => Header(l) + (PStr(cls) + PStr(sig))
    case ListedLine(_, cls, exitCls, line, exitLine, _) =>
      Header(l) + ((L4(line) + L4(exitLine)) + (PStr(cls) + PStr(exitCls)))
  }

  function EncodeAll(ls: seq<Listed>): seq<byte>
    requires forall l :: l in ls ==> Sendable(l)
  {
    if ls == [] then [] else EncodeListed(ls[0]) + EncodeAll(ls[1..])
  }

  // ----- the client's reading -----

  /** One entry and the position behind it. */
  function ListedAt(data: seq<byte>, pos: nat): (r: Option<(Listed, nat)>)
    ensures r.Some? ==> r.value.1 <= |data|
  {
    if pos + 13 > |data| then None
    else
      var isMethod, deferred, id := data[pos] == 0, L4At(data, pos + 1) == 1, L8At(data, pos + 5);
      if !isMethod && pos + 21 > |data| then None
      else
        var first := PStrAt(data, if isMethod then pos + 13 else pos + 21);
        if first.None? then None
        else
          var second := PStrAt(data, first.value.1);
          if second.None? then None
          else if isMethod then Some((ListedMethod(id, first.value.0, second.value.0, deferred), second.value.1))
          else Some((ListedLine(id, first.value.0, second.value.0, L4At(data, pos + 13), L4At(data, pos + 17),
                                deferred), second.value.1))
  }

  function ListedFrom(data: seq<byte>, pos: nat, count: nat, before: seq<Listed>): Option<seq<Listed>>
    decreases count
  {
    if count == 0 then Some(before)
    else
      var next := ListedAt(data, pos);
      if next.None? then None else ListedFrom(data, next.value.1, count - 1, before + [next.value.0])
  }

  /** What the client makes of an answer; `None` is an error raised. */
  function ParseListing(body: seq<byte>): Option<seq<Listed>> {
    if |body| < 4 then None else ListedFrom(body, 4, L4At(body, 0), [])
  }

  lemma {:induction false} ReadsListed(data: seq<byte>, pos: nat, l: Listed)
    requires Sendable(l) && At(data, pos, EncodeListed(l))
    ensures ListedAt(data, pos) == Some((l, pos + |EncodeListed(l)|))
  {
    hide At, L4, L8, PStr, PStrAt, L4At, L8At;
    var rest := match l
      case ListedMethod(_, cls, sig, _) => PStr(cls) + PStr(sig)
      case ListedLine(_, cls, exitCls, line, exitLine, _) => (L4(line) + L4(exitLine)) + (PStr(cls) + PStr(exitCls));
    AtSplit(data, pos, Header(l), rest);
    ReadsHeader(data, pos, l);
    match l
    case ListedMethod(_, cls, sig, _) =>
      AtSplit(data, pos + 13, PStr(cls), PStr(sig));
      ReadsPStr(data, pos + 13, cls);
      ReadsPStr(data, pos + 15 + |cls|, sig);
    case ListedLine(_, cls, exitCls, line, exitLine, _) =>
      AtSplit(data, pos + 13, L4(line) + L4(exitLine), PStr(cls) + PStr(exitCls));
      AtSplit(data, pos + 13, L4(line), L4(exitLine));
      AtSplit(data, pos + 21, PStr(cls), PStr(exitCls));
      ReadsL4(data, pos + 13, line);
      ReadsL4(data, pos + 17, exitLine);
      ReadsPStr(data, pos + 21, cls);
      ReadsPStr(data, pos + 23 + |cls|, exitCls);
  }

  lemma {:induction false} ReadsHeader(data: seq<byte>, pos: nat, l: Listed)
    requires Sendable(l) && At(data, pos, Header(l))
    ensures pos + 13 <= |data| && (data[pos] == 0 <==> l.ListedMethod?)
    ensures (L4At(data, pos + 1) == 1 <==> l.deferred) && L8At(data, pos + 5) == l.id
  {
    var kind: byte, status := if l.ListedMethod? then 0 else 1, if l.deferred then 1 else 0;
    AtSplit(data, pos, [kind], L4(status) + L8(l.id));
    AtSplit(data, pos + 1, L4(status), L8(l.id));
    ReadsL4(data, pos + 1, status);
    ReadsL8(data, pos + 5, l.id);
    assert data[pos] == data[pos..pos + 1][0];
  }

  lemma {:induction false} ReadsAll(data: seq<byte>, pos: nat, ls: seq<Listed>, before: seq<Listed>)
    requires (forall l :: l in ls ==> Sendable(l)) && At(data, pos, EncodeAll(ls))
    ensures ListedFrom(data, pos, |ls|, before) == Some(before + ls)
    decreases |ls|
  {
    hide EncodeListed, ListedAt, At;
    if ls == [] {
      assert before + ls == before;
    } else {
      AtSplit(data, pos, EncodeListed(ls[0]), EncodeAll(ls[1..]));
      ReadsListed(data, pos, ls[0]);
      ReadsAll(data, pos + |EncodeListed(ls[0])|, ls[1..], before + [ls[0]]);
      assert before + [ls[0]] + ls[1..] == before + ls;
    }
  }

  /** The client gets back exactly the visible entries, in order, each with its status. */
  lemma {:induction false} ListingRoundTrip(ls: seq<Listed>)
    requires |ls| <= MAX_U32 && forall l :: l in ls ==> Sendable(l)
    ensures ParseListing(L4(|ls|) + EncodeAll(ls)) == Some(ls)
  {
    var body := L4(|ls|) + EncodeAll(ls);
    AtSplit(body, 0, L4(|ls|), EncodeAll(ls));
    assert At(body, 0, body);
    ReadsL4(body, 0, |ls|);
    ReadsAll(body, 4, ls, []);
    assert [] + ls == ls;
  }

  // ----- the agent's two passes -----

  function TotalSize(s: seq<byte>): nat { 2 + |s| }

  /** What one instrument adds to the size. */
  method SizeOf(i: Instrument) returns (size: nat)
    requires Storable(i) && !i.VarBind?
    ensures Sendable(Shown(i)) && size == |EncodeListed(Shown(i))| && size > 0
  {
    size := 13;
    match i
    case Method(_, cls, sig, _) => size := size + TotalSize(cls) + TotalSize(sig);
    case Line(_, cls, exitCls, _, _, _, _) => size := size + 8 + TotalSize(cls) + TotalSize(exitCls);
  }

  lemma {:induction false} VisibleSnoc(all: seq<Instrument>, i: Instrument)
    ensures Visible(all + [i]) == if i.VarBind? then Visible(all) else Visible(all) + [Shown(i)]
    decreases |all|
  {
    if all == [] {
      assert all + [i] == [i] && [i][1..] == [];
    } else {
      assert (all + [i])[0] == all[0] && (all + [i])[1..] == all[1..] + [i];
      VisibleSnoc(all[1..], i);
    }
  }

  lemma {:induction false} EncodeAllSnoc(ls: seq<Listed>, l: Listed)
    requires (forall x :: x in ls ==> Sendable(x)) && Sendable(l)
    ensures (forall x :: x in ls + [l] ==> Sendable(x)) && EncodeAll(ls + [l]) == EncodeAll(ls) + EncodeListed(l)
    decreases |ls|
  {
    hide EncodeListed;
    if ls == [] {
      assert ls + [l] == [l] && [l][1..] == [];
      assert EncodeAll([l]) == EncodeListed(l) + EncodeAll([]);
    } else {
      assert (ls + [l])[0] == ls[0] && (ls + [l])[1..] == ls[1..] + [l];
      EncodeAllSnoc(ls[1..], l);
    }
  }

  lemma {:induction false} VisibleSendable(all: seq<Instrument>)
    requires forall i :: i in all ==> Storable(i)
    ensures forall l :: l in Visible(all) ==> Sendable(l)
    decreases |all|
  {
    if all == [] {
    } else {
      assert Storable(all[0]);
      VisibleSendable(all[1..]);
    }
  }

  /** The registry up to one more entry: the encoding grows by that entry's, if it is visible. */
  lemma {:induction false} OneMore(all: seq<Instrument>, k: nat)
    requires k < |all| && forall i :: i in all ==> Storable(i)
    ensures forall l :: l in Visible(all[..k]) ==> Sendable(l)
    ensures forall l :: l in Visible(all[..k + 1]) ==> Sendable(l)
    ensures all[k].VarBind? ==> Visible(all[..k + 1]) == Visible(all[..k])
    ensures !all[k].VarBind? ==> Sendable(Shown(all[k])) && Visible(all[..k + 1]) == Visible(all[..k]) + [Shown(all[k])]
    ensures !all[k].VarBind? ==>
            EncodeAll(Visible(all[..k + 1])) == EncodeAll(Visible(all[..k])) + EncodeListed(Shown(all[k]))
  {
    hide EncodeListed, EncodeAll;
    assert all[..k + 1] == all[..k] + [all[k]];
    VisibleSnoc(all[..k], all[k]);
    assert forall i :: i in all[..k + 1] ==> i in all;
    assert all[k] in all;
    VisibleSendable(all[..k]);
    VisibleSendable(all[..k + 1]);
    if !all[k].VarBind? {
      EncodeAllSnoc(Visible(all[..k]), Shown(all[k]));
    }
  }

  /** `uif_respond_list_instrumented`: no answer when it would not fit in 32
      bits or there is no memory; otherwise the second pass fills exactly the
      buffer the first pass asked for. */
  method RespondListing(all: seq<Instrument>, memOk: bool) returns (body: Option<seq<byte>>)
    requires forall i :: i in all ==> Storable(i)
    ensures forall l :: l in Visible(all) ==> Sendable(l)
    ensures body.Some? ==> |Visible(all)| <= MAX_U32 && body.value == L4(|Visible(all)|) + EncodeAll(Visible(all))
    ensures body.Some? <==> memOk && 4 + |EncodeAll(Visible(all))| <= 0xFFFF_FFFF
  {
    hide EncodeListed, EncodeAll, Visible;
    VisibleSendable(all);
    assert all[..|all|] == all;
    var size, count := FirstPass(all);
    if size > MAX_U32 {
      return None;
    }
    if !memOk {
      return None;
    }
    var w := new Writer(size);
    w.Put(L4(count));
    SecondPass(all, w, size);
    body := Some(w.Written());
  }

  method FirstPass(all: seq<Instrument>) returns (size: nat, count: nat)
    requires forall i :: i in all ==> Storable(i)
    ensures forall l :: l in Visible(all) ==> Sendable(l)
    ensures size == 4 + |EncodeAll(Visible(all))| && count == |Visible(all)| && count <= size
  {
    hide EncodeListed;
    assert all[..0] == [];
    size, count := 4, 0;
    for k := 0 to |all|
      invariant forall l :: l in Visible(all[..k]) ==> Sendable(l)
      invariant size == 4 + |EncodeAll(Visible(all[..k]))| && count == |Visible(all[..k])| && count <= size
    {
      OneMore(all, k);
      if all[k].VarBind? {
        continue;
      }
      var more := SizeOf(all[k]);
      size, count := size + more, count + 1;
    }
    assert all[..|all|] == all;
  }

  method SecondPass(all: seq<Instrument>, w: Writer, size: nat)
    requires (forall i :: i in all ==> Storable(i)) && forall l :: l in Visible(all) ==> Sendable(l)
    requires w.Valid() && w.p == 4 && size == w.buf.Length == 4 + |EncodeAll(Visible(all))|
    modifies w, w.buf
    ensures w.Valid() && w.p == size && w.Written() == old(w.Written()) + EncodeAll(Visible(all))
  {
    hide EncodeListed, Visible;
    assert all[..0] == [];
    VisibleNone();
    assert w.Written() + [] == w.Written();
    for k := 0 to |all|
      invariant w.Valid() && (forall l :: l in Visible(all[..k]) ==> Sendable(l))
      invariant w.p == 4 + |EncodeAll(Visible(all[..k]))|
      invariant w.Written() == old(w.Written()) + EncodeAll(Visible(all[..k]))
    {
      OneMore(all, k);
      RoomFor(all, k);
      if all[k].VarBind? {
        continue;
      }
      ghost var before := w.Written();
      PutEntry(all[k], w);
      assert w.Written() == before + EncodeListed(Shown(all[k]));
    }
    assert all[..|all|] == all;
  }

  lemma {:induction false} VisibleNone()
    ensures Visible([]) == []
  {
  }

  /** What is encoded so far is a prefix of the whole. */
  lemma {:induction false} RoomFor(all: seq<Instrument>, k: nat)
    requires k < |all| && (forall i :: i in all ==> Storable(i)) && forall l :: l in Visible(all) ==> Sendable(l)
    requires forall l :: l in Visible(all[..k + 1]) ==> Sendable(l)
    ensures |EncodeAll(Visible(all[..k + 1]))| <= |EncodeAll(Visible(all))|
    decreases |all| - k
  {
    hide EncodeListed, EncodeAll, Visible;
    if k + 1 == |all| {
      assert all[..k + 1] == all;
    } else {
      OneMore(all, k + 1);
      RoomFor(all, k + 1);
    }
  }

  method PutNames(w: Writer, a: seq<byte>, b: seq<byte>)
    requires |a| <= MAX_U16 && |b| <= MAX_U16 && w.Valid() && w.p + |PStr(a) + PStr(b)| <= w.buf.Length
    modifies w, w.buf
    ensures w.Valid() && w.Written() == old(w.Written()) + (PStr(a) + PStr(b)) && w.p == old(w.p) + |PStr(a) + PStr(b)|
  {
    hide PStr, Writer.Written;
    w.Put(PStr(a));
    w.Put(PStr(b));
    assert old(w.Written()) + PStr(a) + PStr(b) == old(w.Written()) + (PStr(a) + PStr(b));
  }

  lemma {:induction false} Regroup(s: seq<byte>, a: seq<byte>, b: seq<byte>, c: seq<byte>)
    ensures s + a + b + c == s + (a + (b + c))
    ensures s + a + b == s + (a + b)
  {
  }

  /** One entry: header, line numbers if it is a line, two names. */
  method PutEntry(i: Instrument, w: Writer)
    requires Storable(i) && !i.VarBind? && w.Valid() && Sendable(Shown(i))
    requires w.p + |EncodeListed(Shown(i))| <= w.buf.Length
    modifies w, w.buf
    ensures w.Valid() && w.Written() == old(w.Written()) + EncodeListed(Shown(i))
    ensures w.p == old(w.p) + |EncodeListed(Shown(i))|
  {
    hide PStr, Writer.Written, Header, L4;
    ghost var before, header := w.Written(), Header(Shown(i));
    PutHeader(i, w);
    match i
    case Method(_, cls, sig, _) =>
      PutNames(w, cls, sig);
      Regroup(before, header, PStr(cls) + PStr(sig), []);
    case Line(_, cls, exitCls, line, exitLine, _, _) =>
      ghost var lines, names := L4(line) + L4(exitLine), PStr(cls) + PStr(exitCls);
      w.Put(L4(line) + L4(exitLine));
      PutNames(w, cls, exitCls);
      Regroup(before, header, lines, names);
  }

  method PutHeader(i: Instrument, w: Writer)
    requires Storable(i) && !i.VarBind? && w.Valid() && Sendable(Shown(i)) && w.p + |Header(Shown(i))| <= w.buf.Length
    modifies w, w.buf
    ensures w.Valid() && w.Written() == old(w.Written()) + Header(Shown(i)) && w.p == old(w.p) + |Header(Shown(i))|
  {
    var deferred := if i.Method? then i.deferred else i.enterDeferred || i.exitDeferred;
    w.Put([if i.Method? then 0 else 1] + (L4(if deferred then 1 else 0) + L8(i.id)));
  }

  /** `get_instruments`, from the body of the answer on. */
  method GetInstruments(body: seq<byte>) returns (r: Option<seq<Listed>>)
    ensures r == ParseListing(body)
  {
    hide ListedAt;
    if |body| < 4 {
      return None;
    }
    var count, offset, result := L4At(body, 0), 4 as nat, [];
    for k := 0 to count
      invariant ListedFrom(body, offset, count - k, result) == ParseListing(body)
    {
      var next := ReadEntry(body, offset);
      if next.None? {
        return None;
      }
      result, offset := result + [next.value.0], next.value.1;
    }
    r := Some(result);
  }

  method ReadEntry(body: seq<byte>, start: nat) returns (r: Option<(Listed, nat)>)
    ensures r == ListedAt(body, start)
  {
    var offset := start;
    if offset + 13 > |body| {
      return None;
    }
    var kind, status, id := body[offset], L4At(body, offset + 1), L8At(body, offset + 5);
    offset := offset + 13;
    if kind == 0 {
      var cls := PStrAt(body, offset);
      if cls.None? {
        return None;
      }
      var sig := PStrAt(body, cls.value.1);
      if sig.None? {
        return None;
      }
      return Some((ListedMethod(id, cls.value.0, sig.value.0, status == 1), sig.value.1));
    }
    if offset + 8 > |body| {
      return None;
    }
    var line, exitLine := L4At(body, offset), L4At(body, offset + 4);
    offset := offset + 8;
    var cls := PStrAt(body, offset);
    if cls.None? {
      return None;
    }
    var exitCls := PStrAt(body, cls.value.1);
    if exitCls.None? {
      return None;
    }
    r := Some((ListedLine(id, cls.value.0, exitCls.value.0, line, exitLine, status == 1), exitCls.value.1));
  }

  // ----- from the registry to the client -----

  /** The entries before `k` that clients may see. */
  function SeenBefore(all: seq<Instrument>, k: nat): set<nat>
    requires k <= |all|
  {
    set j: nat | j < k && !all[j].VarBind?
  }

  lemma {:induction false} SeenGrows(all: seq<Instrument>, k: nat)
    requires k < |all|
    ensures SeenBefore(all, k + 1) == SeenBefore(all, k) + if all[k].VarBind? then {} else {k}
  {
  }

  lemma {:induction false} VisibleAt(all: seq<Instrument>, n: nat)
    requires n <= |all|
    ensures var ls := Visible(all[..n]);
            && |ls| == |SeenBefore(all, n)|
            && forall k: nat :: k < n && !all[k].VarBind? ==>
                 |SeenBefore(all, k)| < |ls| && ls[|SeenBefore(all, k)|] == Shown(all[k])
    decreases n
  {
    hide SeenBefore, Shown, Visible;
    if n == 0 {
      VisibleNone();
      NoneSeen(all);
    } else {
      assert all[..n] == all[..n - 1] + [all[n - 1]];
      VisibleAt(all, n - 1);
      VisibleSnoc(all[..n - 1], all[n - 1]);
      SeenGrows(all, n - 1);
      NotYetSeen(all, n - 1);
    }
  }

  lemma {:induction false} NoneSeen(all: seq<Instrument>)
    ensures SeenBefore(all, 0) == {}
  {
  }

  lemma {:induction false} NotYetSeen(all: seq<Instrument>, k: nat)
    requires k < |all|
    ensures k !in SeenBefore(all, k)
  {
  }

  /** What a client reads is, for each method and line in the registry and in its order, the
      entry's own number, names and lines; a line is deferred if and only if one of its
      sides still waits. */
  lemma {:induction false} ClientSeesRegistry(all: seq<Instrument>) returns (ls: seq<Listed>)
    requires |Visible(all)| <= 0xFFFF_FFFF
    requires forall i :: i in all ==> i.id <= 0xFFFF_FFFF_FFFF_FFFF && |i.cls| <= 65535
    requires forall i :: i in all && i.Method? ==> |i.sig| <= 65535
    requires forall i :: i in all && i.Line? ==>
               |i.exitCls| <= 65535 && i.line <= 0xFFFF_FFFF && i.exitLine <= 0xFFFF_FFFF
    requires forall i :: i in all && i.VarBind? ==> |i.name| <= 65535
    ensures forall l :: l in Visible(all) ==> Sendable(l)
    ensures ParseListing(L4(|Visible(all)|) + EncodeAll(Visible(all))) == Some(ls)
    ensures |ls| == |SeenBefore(all, |all|)|
    ensures forall k: nat :: k < |all| && !all[k].VarBind? ==> |SeenBefore(all, k)| < |ls|
    ensures forall k: nat :: k < |all| && all[k].Method? ==>
              ls[|SeenBefore(all, k)|] == ListedMethod(all[k].id, all[k].cls, all[k].sig, all[k].deferred)
    ensures forall k: nat :: k < |all| && all[k].Line? ==>
              ls[|SeenBefore(all, k)|] ==
              ListedLine(all[k].id, all[k].cls, all[k].exitCls, all[k].line, all[k].exitLine,
                         all[k].enterDeferred || all[k].exitDeferred)
  {
    hide EncodeListed, EncodeAll, Visible, SeenBefore, ParseListing;
    VisibleSendable(all);
    assert all[..|all|] == all;
    ls := Visible(all);
    ListingRoundTrip(ls);
    VisibleAt(all, |all|);
  }
}
