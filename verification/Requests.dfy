/**
 Requests on the wire: what the client packs and what the agent makes of the
 body of a message, whatever bytes it consists of.
 */
module Requests {
  import opened Prelude
  import opened Bytes
  import opened Wire
  import opened ClassFile
  import opened ClassFileFormat

  // ----- a class and a method -----

  /** `pstring.pack` raises an error for a name that is too long. */
  function PackNames(cls: seq<byte>, sig: seq<byte>): Option<seq<byte>> {
    match (Pack(cls), Pack(sig))
    case (Some(a), Some(b)) => Some(a + b)
    case _ => None
  }

  /** Two whole strings at the front of the body, as C strings. */
  function DecodeNames(body: seq<byte>): Option<(seq<byte>, seq<byte>)> {
    var cls := PStrAt(body, 0);
    if cls.None? then None
    else
      var sig := PStrAt(body, cls.value.1);
      if sig.None? then None else Some((CStr(cls.value.0), CStr(sig.value.0)))
  }

  datatype Answer<+T> = Sent(request: T) | Rejected | NoMemory

  /** `handle_instrument_method`, and `handle_deinstrument_method` likewise: both
      lengths are checked before a byte of either name is read. */
  method HandleMethodRequest(body: seq<byte>, clsOk: bool, sigOk: bool) returns (r: Answer<(seq<byte>, seq<byte>)>)
    ensures r.Sent? ==> DecodeNames(body) == Some(r.request)
    ensures r == Rejected <==> DecodeNames(body).None?
    ensures r == NoMemory <==> DecodeNames(body).Some? && !(clsOk && sigOk)
  {
    if |body| < 2 {
      return Rejected;
    }
    var classLen := L2At(body, 0);
    var off := 2 + classLen;
    if |body| < off + 2 {
      return Rejected;
    }
    var sigLen := L2At(body, off);
    off := off + 2;
    if |body| < off + sigLen {
      return Rejected;
    }
    if !clsOk {
      return NoMemory;
    }
    var cls := ReadCString(body[2..2 + classLen]);
    if !sigOk {
      return NoMemory;
    }
    var sig := ReadCString(body[off..off + sigLen]);
    r := Sent((cls, sig));
  }

  /** The copy ends in a zero byte; whoever uses it stops at the first one. */
  method ReadCString(bytes: seq<byte>) returns (s: seq<byte>)
    ensures s == CStr(bytes)
  {
    var n := Strlen(bytes);
    s := bytes[..n];
  }

  /** The agent gets the names the client packed, whatever follows them, if and
      only if neither holds a zero byte. */
  lemma {:induction false} NamesRoundTripIff(cls: seq<byte>, sig: seq<byte>, rest: seq<byte>)
    requires PackNames(cls, sig).Some?
    ensures DecodeNames(PackNames(cls, sig).value + rest) == Some((cls, sig)) <==> 0 !in cls && 0 !in sig
  {
    hide At, PStr, PStrAt;
    var body := PStr(cls) + PStr(sig) + rest;
    AtStart(PStr(cls) + PStr(sig), rest);
    AtSplit(body, 0, PStr(cls), PStr(sig));
    ReadsPStr(body, 0, cls);
    ReadsPStr(body, 2 + |cls|, sig);
    CStrWhole(cls);
    CStrWhole(sig);
  }

  /** The client packs exactly the names of at most 65535 bytes. */
  lemma {:induction false} PacksIff(cls: seq<byte>, sig: seq<byte>)
    ensures PackNames(cls, sig).Some? <==> |cls| <= 65535 && |sig| <= 65535
    ensures PackNames(cls, sig).Some? ==> |PackNames(cls, sig).value| == 4 + |cls| + |sig|
  {
  }

  /** Every body that is accepted starts with two packed names. */
  lemma {:induction false} AcceptedIsPacked(body: seq<byte>)
    requires DecodeNames(body).Some?
    ensures exists cls, sig :: PackNames(cls, sig).Some? && At(body, 0, PackNames(cls, sig).value) &&
              DecodeNames(body).value == (CStr(cls), CStr(sig))
  {
    hide PStr, CStr;
    var a := PStrAt(body, 0).value;
    var b := PStrAt(body, a.1).value;
    PStrIsThere(body, 0);
    PStrIsThere(body, a.1);
    AtSplit(body, 0, PStr(a.0), PStr(b.0));
    assert PackNames(a.0, b.0) == Some(PStr(a.0) + PStr(b.0));
  }

  // ----- two lines of two classes -----

  datatype LineRequest = LineRequest(line: int, exitLine: int, cls: seq<byte>, exitCls: seq<byte>)

  predicate U32(n: int) { 0 <= n <= MAX_U32 }

  function PackLine(r: LineRequest): Option<seq<byte>> {
    if !U32(r.line) || !U32(r.exitLine) then None
    else
      match PackNames(r.cls, r.exitCls)
      case None => None
      case Some(names) => Some((L4(r.line) + L4(r.exitLine)) + names)
  }

  function DecodeLine(body: seq<byte>): Option<LineRequest> {
    if |body| < 8 then None
    else
      var cls := PStrAt(body, 8);
      if cls.None? then None
      else
        var exitCls := PStrAt(body, cls.value.1);
        if exitCls.None? then None
        else Some(LineRequest(L4At(body, 0), L4At(body, 4), cls.value.0, exitCls.value.0))
  }

  /** `handle_instrument_line`: what is left of the body is counted down. */
  method HandleLineRequest(body: seq<byte>) returns (r: Answer<LineRequest>)
    ensures r.Sent? ==> DecodeLine(body) == Some(r.request)
    ensures r == Rejected <==> DecodeLine(body).None?
    ensures r != NoMemory
  {
    var size := |body|;
    if size < 8 {
      return Rejected;
    }
    size := size - 8;
    if size < 2 {
      return Rejected;
    }
    var raw := 8;
    var total := 2 + L2At(body, raw);
    if size < total {
      return Rejected;
    }
    var cls := body[raw + 2..raw + total];
    size := size - total;
    if size < 2 {
      return Rejected;
    }
    raw := raw + total;
    var exitTotal := 2 + L2At(body, raw);
    if size < exitTotal {
      return Rejected;
    }
    r := Sent(LineRequest(L4At(body, 0), L4At(body, 4), cls, body[raw + 2..raw + exitTotal]));
  }

  /** Whatever the client can pack, the agent reads back. */
  lemma {:induction false} LineRoundTrip(r: LineRequest, rest: seq<byte>)
    requires PackLine(r).Some?
    ensures DecodeLine(PackLine(r).value + rest) == Some(r)
  {
    hide At, PStr, PStrAt, L4;
    var lines, names := L4(r.line) + L4(r.exitLine), PStr(r.cls) + PStr(r.exitCls);
    var body := lines + names + rest;
    AtStart(lines + names, rest);
    AtSplit(body, 0, lines, names);
    AtSplit(body, 0, L4(r.line), L4(r.exitLine));
    AtSplit(body, 8, PStr(r.cls), PStr(r.exitCls));
    ReadsL4(body, 0, r.line);
    ReadsL4(body, 4, r.exitLine);
    ReadsPStr(body, 8, r.cls);
    ReadsPStr(body, 10 + |r.cls|, r.exitCls);
  }

  lemma {:induction false} LinePacksIff(r: LineRequest)
    ensures PackLine(r).Some? <==>
            && 0 <= r.line <= 0xFFFF_FFFF && 0 <= r.exitLine <= 0xFFFF_FFFF
            && |r.cls| <= 65535 && |r.exitCls| <= 65535
  {
    PacksIff(r.cls, r.exitCls);
  }
}
