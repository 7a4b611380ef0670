/**
 Message framing on a client connection. A message is an eight-byte header
 (type and body size, least significant byte first) and its body; the socket
 hands over bytes in pieces of any size, never more than asked for.
 */
module Framing {
  import opened Prelude
  import opened Bytes
  import opened Environment

  const HEADER: nat := 8
  const MAX_BODY: nat := 0x10_0000

  function BodySize(header: seq<byte>): nat
    requires |header| >= HEADER
  {
    L4At(header, 4)
  }

  // ----- the whole stream at once -----

  datatype Stream = Stream(messages: seq<seq<byte>>, oversize: bool)

  /** The messages of a stream, up to the first header that asks for too much. */
  function Parsed(stream: seq<byte>): Stream {
    if |stream| < HEADER then Stream([], false)
    else if BodySize(stream) > MAX_BODY then Stream([], true)
    else if |stream| < HEADER + BodySize(stream) then Stream([], false)
    else
      var size := HEADER + BodySize(stream);
      var rest := Parsed(stream[size..]);
      Stream([stream[..size]] + rest.messages, rest.oversize)
  }

  predicate IsMessage(m: seq<byte>) { |m| >= HEADER && BodySize(m) <= MAX_BODY && |m| == HEADER + BodySize(m) }

  function Flattened(messages: seq<seq<byte>>): seq<byte> {
    if messages == [] then [] else messages[0] + Flattened(messages[1..])
  }

  lemma {:induction false} FlattenedSnoc(messages: seq<seq<byte>>, m: seq<byte>)
    ensures Flattened(messages + [m]) == Flattened(messages) + m
    decreases |messages|
  {
    if messages == [] {
      assert [m][1..] == [];
    } else {
      assert (messages + [m])[1..] == messages[1..] + [m];
      FlattenedSnoc(messages[1..], m);
    }
  }

  lemma {:induction false} ParsedMessage(m: seq<byte>, rest: seq<byte>)
    requires IsMessage(m)
    ensures Parsed(m + rest) == Stream([m] + Parsed(rest).messages, Parsed(rest).oversize)
  {
    var all := m + rest;
    assert all[..|m|] == m && all[|m|..] == rest;
    assert BodySize(all) == BodySize(m);
  }

  /** Whole messages followed by anything parse to those messages and what follows. */
  lemma {:induction false} ParsedMessages(messages: seq<seq<byte>>, rest: seq<byte>)
    requires forall m :: m in messages ==> IsMessage(m)
    ensures Parsed(Flattened(messages) + rest) == Stream(messages + Parsed(rest).messages, Parsed(rest).oversize)
    decreases |messages|
  {
    hide Parsed, IsMessage;
    if messages == [] {
      assert Flattened(messages) + rest == rest;
      assert messages + Parsed(rest).messages == Parsed(rest).messages;
    } else {
      ParsedMessages(messages[1..], rest);
      ParsedMessage(messages[0], Flattened(messages[1..]) + rest);
      assert Flattened(messages) + rest == messages[0] + (Flattened(messages[1..]) + rest);
      assert [messages[0]] + (messages[1..] + Parsed(rest).messages) == messages + Parsed(rest).messages;
    }
  }

  /** What a client sends is what is delivered. */
  lemma {:induction false} SentIsParsed(messages: seq<seq<byte>>)
    requires forall m :: m in messages ==> IsMessage(m)
    ensures Parsed(Flattened(messages)) == Stream(messages, false)
  {
    ParsedMessages(messages, []);
    assert Flattened(messages) + [] == Flattened(messages) && messages + [] == messages;
  }

  /** Nothing after an oversize header matters. */
  lemma {:induction false} OversizeEnds(stream: seq<byte>, more: seq<byte>)
    requires Parsed(stream).oversize
    ensures Parsed(stream + more) == Parsed(stream)
    decreases |stream|
  {
    var all := stream + more;
    assert BodySize(all) == BodySize(stream);
    if BodySize(stream) > MAX_BODY {
    } else {
      var size := HEADER + BodySize(stream);
      assert all[..size] == stream[..size] && all[size..] == stream[size..] + more;
      OversizeEnds(stream[size..], more);
    }
  }

  // ----- one connection -----

  datatype Closed = Open | Oversize | Failed

  datatype ReadResult = Data(bytes: seq<byte>) | WouldBlock | EndOrError

  class Connection {
    var buf: array<byte>
    var bytesRead: nat
    var expected: nat
    var closed: Closed
    /** Messages handed to the handler, in order. */
    var delivered: seq<seq<byte>>
    /** All bytes received so far. */
    ghost var received: seq<byte>

    ghost predicate Valid()
      reads this, buf
    {
      && (forall m :: m in delivered ==> IsMessage(m))
      && match closed
         case Open =>
           && HEADER <= expected <= buf.Length <= HEADER + MAX_BODY && bytesRead < expected
           && received == Flattened(delivered) + buf[..bytesRead]
           && (if bytesRead < HEADER then expected == HEADER
               else BodySize(buf[..bytesRead]) <= MAX_BODY && expected == HEADER + BodySize(buf[..bytesRead]))
         case Oversize => Parsed(received) == Stream(delivered, true)
         case Failed => Parsed(received) == Stream(delivered, false)
    }

    constructor ()
      ensures Valid() && closed == Open && delivered == [] && received == [] && fresh(buf)
    {
      buf := new byte[HEADER](_ => 0);
      bytesRead, expected, closed, delivered, received := 0, HEADER, Open, [], [];
    }

    /** How many bytes the next read asks for: at least one, and there is room for all. */
    function Requested(): (n: nat)
      requires Valid() && closed == Open
      reads this, buf
      ensures n > 0 && bytesRead + n <= buf.Length
    {
      expected - bytesRead
    }

    /** However the bytes came in pieces, what has been delivered is what the
        whole stream so far parses to. */
    lemma {:induction false} DeliveredIsParsed()
      requires Valid()
      ensures Parsed(received) == Stream(delivered, closed == Oversize)
    {
      if closed == Open {
        ParsedMessages(delivered, buf[..bytesRead]);
        assert Parsed(buf[..bytesRead]) == Stream([], false);
        assert delivered + [] == delivered;
      }
    }

    method Copy(bytes: seq<byte>)
      requires bytesRead + |bytes| <= buf.Length
      modifies buf
      ensures buf[..bytesRead + |bytes|] == old(buf[..bytesRead]) + bytes
    {
      for i := 0 to |bytes|
        invariant buf[..bytesRead + i] == old(buf[..bytesRead]) + bytes[..i]
      {
        buf[bytesRead + i] := bytes[i];
        assert buf[..bytesRead + i + 1] == buf[..bytesRead + i] + [bytes[i]];
      }
      assert bytes[..|bytes|] == bytes;
    }

    /** `handle_client_data`, for whatever one read returns. */
    method HandleData(r: ReadResult, env: World)
      requires Valid() && closed == Open && (r.Data? ==> 0 < |r.bytes| <= Requested())
      modifies this, buf, env
      ensures Valid() && (buf == old(buf) || fresh(buf)) && old(delivered) <= delivered
      ensures r.Data? ==> Went(old(env.log), env.log, closed != Failed)
      ensures received == old(received) + if r.Data? then r.bytes else []
      ensures r.EndOrError? ==> closed == Failed
      ensures r.WouldBlock? ==> closed == Open && delivered == old(delivered)
      ensures r.Data? && closed == Failed ==>
              old(bytesRead) + |r.bytes| == HEADER && old(buf.Length) < HEADER + MAX_BODY
    {
      match r
      case WouldBlock =>
        assert received + [] == received;
      case EndOrError =>
        assert received + [] == received;
        DeliveredIsParsed();
        closed := Failed;
      case Data(bytes) =>
        HandleBytes(bytes, env);
    }

    /** A whole stream, read in pieces of the socket's choosing: unless the
        connection failed, the messages delivered are those of the stream. */
    method Receive(stream: seq<byte>, env: World)
      requires Valid() && closed == Open && received == []
      modifies this, buf, env
      ensures Valid() && Went(old(env.log), env.log, closed != Failed)
      ensures closed != Failed ==> Stream(delivered, closed == Oversize) == Parsed(stream)
      ensures closed == Failed ==> delivered <= Parsed(stream).messages
    {
      hide Parsed, Flattened, Went;
      var done := 0;
      ghost var first, log := buf, env.log;
      WentNowhere(log);
      assert stream[..0] == [];
      while done < |stream| && closed == Open
        invariant Valid() && 0 <= done <= |stream| && received == stream[..done] && (buf == first || fresh(buf))
        invariant Went(log, env.log, closed != Failed)
      {
        ghost var before := env.log;
        var n := SocketRead(Requested(), |stream| - done);
        assert stream[..done] + stream[done..done + n] == stream[..done + n];
        HandleData(Data(stream[done..done + n]), env);
        WentOn(log, before, env.log, true, closed != Failed);
        done := done + n;
      }
      DeliveredIsParsed();
      assert stream[..done] + stream[done..] == stream;
      assert closed == Open ==> stream[..done] == stream;
      if closed == Oversize {
        OversizeEnds(stream[..done], stream[done..]);
      } else {
        MoreIsLater(stream[..done], stream[done..]);
      }
    }

    /** The bytes are there; whether a header or a message is complete is open. */
    ghost predicate Between()
      reads this, buf
    {
      && closed == Open && (forall m :: m in delivered ==> IsMessage(m))
      && HEADER <= expected <= buf.Length <= HEADER + MAX_BODY && bytesRead <= expected
      && received == Flattened(delivered) + buf[..bytesRead]
      && (if bytesRead <= HEADER then expected == HEADER
          else BodySize(buf[..bytesRead]) <= MAX_BODY && expected == HEADER + BodySize(buf[..bytesRead]))
    }

    method TakeBytes(bytes: seq<byte>)
      requires Valid() && closed == Open && 0 < |bytes| <= Requested()
      modifies this`bytesRead, this`received, buf
      ensures Between() && received == old(received) + bytes && bytesRead == old(bytesRead) + |bytes|
    {
      hide Parsed, Flattened, BodySize;
      Copy(bytes);
      assert received + bytes == Flattened(delivered) + (old(buf[..bytesRead]) + bytes);
      bytesRead, received := bytesRead + |bytes|, received + bytes;
      if old(bytesRead) >= HEADER {
        SameHeader(buf[..bytesRead], old(buf[..bytesRead]), bytes);
      }
    }

    lemma {:induction false} NothingMore(part: seq<byte>, oversize: bool)
      requires received == Flattened(delivered) + part && forall m :: m in delivered ==> IsMessage(m)
      requires Parsed(part) == Stream([], oversize)
      ensures Parsed(received) == Stream(delivered, oversize)
    {
      hide Parsed, Flattened;
      ParsedMessages(delivered, part);
      assert delivered + [] == delivered;
    }

    /** A whole header: too large, or what is expected next is known and there is room for it. */
    method HandleHeader(env: World) returns (ok: bool)
      requires Between() && bytesRead == HEADER
      modifies this`closed, this`expected, this`buf, env
      ensures Went(old(env.log), env.log, closed != Failed)
      ensures buf == old(buf) || fresh(buf)
      ensures !ok ==> Valid() && closed != Open && (closed == Failed ==> old(buf.Length) < HEADER + MAX_BODY)
      ensures ok ==> closed == Open && bytesRead <= expected <= buf.Length <= HEADER + MAX_BODY
      ensures ok ==> buf[..bytesRead] == old(buf[..bytesRead]) && BodySize(buf[..bytesRead]) <= MAX_BODY
      ensures ok ==> expected == HEADER + BodySize(buf[..bytesRead])
    {
      hide Parsed, Flattened, L4At;
      ghost var log := env.log;
      WentNowhere(log);
      var size := BodySize(buf[..bytesRead]);
      ok := size <= MAX_BODY;
      if !ok {
        TooLarge(buf[..bytesRead]);
        NothingMore(buf[..bytesRead], true);
        closed := Oversize;
      } else if size > 0 {
        var needed := HEADER + size;
        if needed > buf.Length {
          var memOk := env.Ask(Memory);
          WentOne(log, Call(Memory, memOk));
          var bigger := Realloc(buf, needed, memOk);
          if bigger.None? {
            NotWhole(buf[..bytesRead]);
            NothingMore(buf[..bytesRead], false);
            closed := Failed;
            return false;
          }
          assert bigger.value[..bytesRead] == buf[..bytesRead];
          buf := bigger.value;
        }
        expected := needed;
      }
    }

    method HandleBytes(bytes: seq<byte>, env: World)
      requires Valid() && closed == Open && 0 < |bytes| <= Requested()
      modifies this, buf, env
      ensures Went(old(env.log), env.log, closed != Failed)
      ensures Valid() && (buf == old(buf) || fresh(buf)) && old(delivered) <= delivered
      ensures received == old(received) + bytes
      ensures closed == Failed ==> old(bytesRead) + |bytes| == HEADER && old(buf.Length) < HEADER + MAX_BODY
    {
      hide Parsed, Flattened, L4At;
      WentNowhere(env.log);
      TakeBytes(bytes);
      if bytesRead == HEADER {
        var ok := HandleHeader(env);
        if !ok {
          return;
        }
      }
      if bytesRead == expected {
        FlattenedSnoc(delivered, buf[..bytesRead]);
        delivered := delivered + [buf[..bytesRead]];
        bytesRead, expected := 0, HEADER;
        assert received == Flattened(delivered) + buf[..0];
      }
    }
  }

  /** At least one byte, no more than asked for, no more than there is. */
  method SocketRead(max: nat, available: nat) returns (n: nat)
    requires max > 0 && available > 0
    ensures 0 < n <= max && n <= available
  {
    n :| 0 < n <= max && n <= available;
  }

  /** More bytes only add messages. */
  lemma {:induction false} MoreIsLater(stream: seq<byte>, more: seq<byte>)
    ensures Parsed(stream).messages <= Parsed(stream + more).messages
    decreases |stream|
  {
    hide L4At;
    var all := stream + more;
    if |stream| < HEADER {
    } else {
      SameHeader(all, stream, more);
      if BodySize(stream) <= MAX_BODY && |stream| >= HEADER + BodySize(stream) {
        var size := HEADER + BodySize(stream);
        assert all[..size] == stream[..size] && all[size..] == stream[size..] + more;
        MoreIsLater(stream[size..], more);
      }
    }
  }

  method Realloc(buf: array<byte>, needed: nat, memOk: bool) returns (r: Option<array<byte>>)
    requires buf.Length < needed
    ensures r.Some? <==> memOk
    ensures r.Some? ==> fresh(r.value) && r.value.Length == needed && r.value[..buf.Length] == buf[..]
  {
    if !memOk {
      return None;
    }
    var bigger := new byte[needed](i requires 0 <= i < needed reads buf => if i < buf.Length then buf[i] else 0);
    assert bigger[..buf.Length] == buf[..];
    r := Some(bigger);
  }

  lemma {:induction false} TooLarge(header: seq<byte>)
    requires |header| == HEADER && BodySize(header) > MAX_BODY
    ensures Parsed(header) == Stream([], true)
  {
  }

  lemma {:induction false} NotWhole(part: seq<byte>)
    requires |part| < HEADER || (BodySize(part) <= MAX_BODY && |part| < HEADER + BodySize(part))
    ensures Parsed(part) == Stream([], false)
  {
  }

  lemma {:induction false} SameHeader(now: seq<byte>, before: seq<byte>, bytes: seq<byte>)
    requires now == before + bytes && |before| >= HEADER
    ensures BodySize(now) == BodySize(before)
  {
  }

  /** A message is a type of four bytes, the size of its body in four bytes and a body
      of at most 2^20 bytes. */
  lemma {:induction false} MessageIff(m: seq<byte>)
    ensures IsMessage(m) <==>
            exists kind: nat, body: seq<byte> :: kind < 0x1_0000_0000 && |body| <= 0x10_0000 &&
              m == L4(kind) + L4(|body|) + body
  {
    if IsMessage(m) {
      var kind := L4At(m, 0);
      L4Back(m, 0);
      L4Back(m, 4);
      assert m == m[0..4] + m[4..8] + m[8..];
      assert m == L4(kind) + L4(|m[8..]|) + m[8..];
    }
    forall kind: nat, body: seq<byte> | kind < 0x1_0000_0000 && |body| <= 0x10_0000 && m == L4(kind) + L4(|body|) + body
      ensures IsMessage(m)
    {
      HeaderRead(kind, |body|, body);
    }
  }

  lemma {:induction false} HeaderRead(kind: nat, size: nat, body: seq<byte>)
    requires kind < 0x1_0000_0000 && size < 0x1_0000_0000
    ensures BodySize(L4(kind) + L4(size) + body) == size
  {
    hide L4, L4At;
    var m := L4(kind) + L4(size) + body;
    assert m == L4(kind) + (L4(size) + body);
    AtSplit(m, 0, L4(kind), L4(size) + body);
    AtSplit(m, 4, L4(size), body);
    ReadsL4(m, 4, size);
  }

  /** Such a message is delivered as one, whatever comes behind it; with a larger size in its
      header nothing is delivered any more. */
  lemma {:induction false} OneMessage(kind: nat, size: nat, body: seq<byte>, rest: seq<byte>)
    requires kind < 0x1_0000_0000 && size < 0x1_0000_0000
    ensures size == |body| <= 0x10_0000 ==>
              Parsed(L4(kind) + L4(size) + body + rest) ==
              Stream([L4(kind) + L4(size) + body] + Parsed(rest).messages, Parsed(rest).oversize)
    ensures size > 0x10_0000 ==> Parsed(L4(kind) + L4(size) + body) == Stream([], true)
  {
    hide L4At;
    var m := L4(kind) + L4(size) + body;
    HeaderRead(kind, size, body);
    if size == |body| <= 0x10_0000 {
      ParsedMessage(m, rest);
    }
  }
}
