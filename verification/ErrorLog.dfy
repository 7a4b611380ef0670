/**
 The log of asynchronous errors: a ring that keeps the last 4096, and the list
 of them on the wire.
 */
module ErrorLog {
  import opened Prelude
  import opened Bytes
  import opened Wire

  const CAP: nat := 4096

  datatype LogEntry = LogEntry(timestamp: int, msg: seq<byte>)

  predicate EntryOk(e: LogEntry) {
    -0x8000_0000_0000_0000 <= e.timestamp < 0x8000_0000_0000_0000 && |e.msg| <= MAX_U16
  }

  /** The last entries pushed, oldest first, as many as the ring holds. */
  function Recent(history: seq<LogEntry>): seq<LogEntry> {
    if |history| <= CAP then history else history[|history| - CAP..]
  }

  lemma {:induction false} DistinctSlots(i: nat, j: nat)
    requires i < j < i + CAP
    ensures i % CAP != j % CAP
  {
  }

  lemma {:induction false} SlotOf(next: nat, count: nat, pushed: nat, k: nat)
    requires next == pushed % CAP && count <= CAP && count <= pushed
    ensures ((next + CAP - count) % CAP + k) % CAP == (pushed - count + k) % CAP
  {
    var q := pushed / CAP;
    assert pushed == q * CAP + next;
    assert (next + CAP - count) % CAP == (pushed - count) % CAP by {
      assert pushed - count == (next + CAP - count) + (q - 1) * CAP;
      AddMultiple(next + CAP - count, q - 1, pushed - count);
    }
    var a := pushed - count;
    AddMultiple(a % CAP + k, a / CAP, a + k);
  }

  lemma {:induction false} AddMultiple(a: int, m: int, b: int)
    requires b == a + m * CAP
    ensures a % CAP == b % CAP
  {
  }

  class ErrLog {
    const entries: array<LogEntry>
    var next: nat
    var count: nat
    /** Everything ever pushed. */
    ghost var history: seq<LogEntry>

    ghost predicate Valid()
      reads this, entries
    {
      && entries.Length == CAP && next == |history| % CAP && count == (if |history| < CAP then |history| else CAP)
      && (forall j :: |history| - count <= j < |history| ==> entries[j % CAP] == history[j])
      && (forall e :: e in history ==> EntryOk(e))
    }

    constructor ()
      ensures Valid() && history == [] && fresh(entries)
    {
      entries := new LogEntry[CAP](_ => LogEntry(0, []));
      next, count, history := 0, 0, [];
    }

    /** `prof_err_log_push`: a message that does not fit a string is not kept. */
    method Push(timestamp: int, msg: seq<byte>, memOk: bool)
      requires Valid() && -0x8000_0000_0000_0000 <= timestamp < 0x8000_0000_0000_0000
      modifies this, entries
      ensures Valid()
      ensures history == if |msg| <= 65535 && memOk then old(history) + [LogEntry(timestamp, msg)] else old(history)
    {
      if |msg| > MAX_U16 || !memOk {
        return;
      }
      DoPush(LogEntry(timestamp, msg));
    }

    method DoPush(e: LogEntry)
      requires Valid() && EntryOk(e)
      modifies this, entries
      ensures Valid() && history == old(history) + [e]
    {
      ghost var n := |history|;
      entries[next] := e;
      next := (next + 1) % CAP;
      AddMultiple(next, (n % CAP + 1) / CAP, n % CAP + 1);
      AddMultiple(n % CAP + 1, n / CAP, n + 1);
      if count < CAP {
        count := count + 1;
      }
      history := history + [e];
      forall j | n + 1 - count <= j < n + 1 ensures entries[j % CAP] == history[j] {
        if j < n {
          DistinctSlots(j, n);
        }
      }
    }

    /** The iterator's `i`-th step: the entries come oldest first, and no others. */
    method Iterate(i: nat) returns (e: Option<LogEntry>)
      requires Valid()
      ensures |Recent(history)| == count
      ensures e == if i < count then Some(Recent(history)[i]) else None
    {
      var start := (next + CAP - count) % CAP;
      var idx := (start + i) % CAP;
      SlotOf(next, count, |history|, i);
      e := if i < count then Some(entries[idx]) else None;
    }

    /** `prof_err_log_size` */
    method Size() returns (n: nat, overhead: nat)
      requires Valid()
      ensures n == count == |Recent(history)| && (forall e :: e in Recent(history) ==> EntryOk(e))
      ensures overhead == |EncodeErrors(Recent(history))|
      ensures overhead <= CAP * (MAX_U16 + 10)
    {
      hide EncodeError;
      n, overhead := 0, 0;
      ghost var kept := Recent(history);
      assert kept[..0] == [];
      for i := 0 to count
        invariant n == i && |kept| == count && (forall e :: e in kept[..i] ==> EntryOk(e))
        invariant overhead == |EncodeErrors(kept[..i])| <= i * (MAX_U16 + 10)
      {
        var e := Iterate(i);
        TakeMore(kept, i);
        EncodeErrorsSnoc(kept[..i], kept[i]);
        ErrorSize(kept[i]);
        n, overhead := n + 1, overhead + 2 + |e.value.msg| + 8;
      }
      assert kept[..count] == kept;
    }

    /** `uif_respond_get_async_errors`: the second pass fills exactly the buffer
        the first pass asked for. */
    method RespondErrors(memOk: bool) returns (body: Option<seq<byte>>)
      requires Valid()
      ensures body.Some? <==> memOk
      ensures forall e :: e in Recent(history) ==> EntryOk(e)
      ensures body.Some? ==>
              |Recent(history)| <= CAP && body.value == L4(|Recent(history)|) + EncodeErrors(Recent(history))
    {
      hide EncodeErrors, L4, Recent;
      var n, overhead := Size();
      if !memOk {
        return None;
      }
      ghost var kept, head := Recent(history), L4(n);
      var w := new Writer(4 + overhead);
      w.Put(L4(n));
      assert [] + head == head;
      PutErrors(w, n);
      body := Some(w.buf[..]);
    }

    method PutErrors(w: Writer, n: nat)
      requires Valid() && n == count == |Recent(history)| && w.Valid() && w.buf != entries as object
      requires (forall e :: e in Recent(history) ==> EntryOk(e)) && w.p == 4
      requires w.buf.Length == 4 + |EncodeErrors(Recent(history))|
      modifies w, w.buf
      ensures w.Valid() && w.p == w.buf.Length && w.Written() == old(w.Written()) + EncodeErrors(Recent(history))
    {
      hide EncodeErrors, EncodeError, Recent, Writer.Written;
      ghost var kept, head := Recent(history), w.Written();
      assert head + [] == head && kept[..0] == [];
      NoErrors();
      for i := 0 to n
        invariant w.Valid() && Valid() && kept == Recent(history)
        invariant w.p == 4 + |EncodeErrors(kept[..i])| && w.Written() == head + EncodeErrors(kept[..i])
      {
        var e := Iterate(i);
        ErrorsRoom(kept, i + 1);
        TakeMore(kept, i);
        EncodeErrorsSnoc(kept[..i], kept[i]);
        PutError(w, e.value);
        Join(head, EncodeErrors(kept[..i]), EncodeError(kept[i]));
      }
      assert kept[..n] == kept;
    }
  }

  // ----- bytes -----

  function EncodeError(e: LogEntry): seq<byte>
    requires EntryOk(e)
  {
    L8(Unsigned(e.timestamp)) + PStr(e.msg)
  }

  function EncodeErrors(es: seq<LogEntry>): seq<byte>
    requires forall e :: e in es ==> EntryOk(e)
  {
    if es == [] then [] else EncodeError(es[0]) + EncodeErrors(es[1..])
  }

  lemma {:induction false} ErrorSize(e: LogEntry)
    requires EntryOk(e)
    ensures |EncodeError(e)| == 10 + |e.msg|
  {
  }

  lemma {:induction false} NoErrors()
    ensures EncodeErrors([]) == []
  {
  }

  lemma {:induction false} EncodeErrorsSnoc(es: seq<LogEntry>, e: LogEntry)
    requires (forall x :: x in es ==> EntryOk(x)) && EntryOk(e)
    ensures (forall x :: x in es + [e] ==> EntryOk(x)) && EncodeErrors(es + [e]) == EncodeErrors(es) + EncodeError(e)
    decreases |es|
  {
    hide EncodeError;
    if es == [] {
      assert es + [e] == [e] && [e][1..] == [];
      assert EncodeErrors([e]) == EncodeError(e) + EncodeErrors([]);
    } else {
      assert (es + [e])[0] == es[0] && (es + [e])[1..] == es[1..] + [e];
      EncodeErrorsSnoc(es[1..], e);
    }
  }

  lemma {:induction false} ErrorsRoom(es: seq<LogEntry>, k: nat)
    requires k <= |es| && forall e :: e in es ==> EntryOk(e)
    ensures (forall e :: e in es[..k] ==> EntryOk(e)) && |EncodeErrors(es[..k])| <= |EncodeErrors(es)|
    decreases |es| - k
  {
    hide EncodeError, EncodeErrors;
    if k == |es| {
      assert es[..k] == es;
    } else {
      TakeMore(es, k);
      ErrorsRoom(es, k + 1);
      EncodeErrorsSnoc(es[..k], es[k]);
    }
  }

  method PutError(w: Writer, e: LogEntry)
    requires EntryOk(e) && w.Valid() && w.p + |EncodeError(e)| <= w.buf.Length
    modifies w, w.buf
    ensures w.Valid() && w.Written() == old(w.Written()) + EncodeError(e) && w.p == old(w.p) + |EncodeError(e)|
  {
    hide Writer.Written, L8, PStr, Unsigned;
    w.Put(L8(Unsigned(e.timestamp)));
    w.Put(PStr(e.msg));
    assert old(w.Written()) + L8(Unsigned(e.timestamp)) + PStr(e.msg) ==
           old(w.Written()) + (L8(Unsigned(e.timestamp)) + PStr(e.msg));
  }

  // ----- the client's reading -----

  function ErrorsFrom(data: seq<byte>, pos: nat, count: nat, before: seq<LogEntry>): Option<seq<LogEntry>>
    decreases count
  {
    if count == 0 then Some(before)
    else if pos + 8 > |data| then None
    else
      var msg := PStrAt(data, pos + 8);
      if msg.None? then None
      else ErrorsFrom(data, msg.value.1, count - 1, before + [LogEntry(Signed(L8At(data, pos)), msg.value.0)])
  }

  function ParseErrors(body: seq<byte>): Option<seq<LogEntry>> {
    if |body| < 4 then None else ErrorsFrom(body, 4, L4At(body, 0), [])
  }

  lemma {:induction false} ReadsError(data: seq<byte>, pos: nat, e: LogEntry)
    requires EntryOk(e) && At(data, pos, EncodeError(e))
    ensures pos + 8 <= |data| && Signed(L8At(data, pos)) == e.timestamp &&
            PStrAt(data, pos + 8) == Some((e.msg, pos + |EncodeError(e)|))
  {
    hide At, L8, PStr, PStrAt;
    AtSplit(data, pos, L8(Unsigned(e.timestamp)), PStr(e.msg));
    ReadsL8(data, pos, Unsigned(e.timestamp));
    ReadsPStr(data, pos + 8, e.msg);
    SignedUnsigned(e.timestamp);
  }

  lemma {:induction false} ReadsErrors(data: seq<byte>, pos: nat, es: seq<LogEntry>, before: seq<LogEntry>)
    requires (forall e :: e in es ==> EntryOk(e)) && At(data, pos, EncodeErrors(es))
    ensures ErrorsFrom(data, pos, |es|, before) == Some(before + es)
    decreases |es|
  {
    hide At, EncodeError, Signed, PStrAt;
    if es == [] {
      assert before + es == before;
    } else {
      assert es[0] in es;
      AtSplit(data, pos, EncodeError(es[0]), EncodeErrors(es[1..]));
      ReadsError(data, pos, es[0]);
      ReadsErrors(data, pos + |EncodeError(es[0])|, es[1..], before + [es[0]]);
      assert before + [es[0]] + es[1..] == before + es;
    }
  }

  /** Whatever was pushed, the client reads back the last 4096 errors, oldest first. */
  lemma {:induction false} ErrorsRoundTrip(history: seq<LogEntry>)
    requires forall e :: e in history ==> EntryOk(e)
    ensures |Recent(history)| <= CAP && forall e :: e in Recent(history) ==> EntryOk(e)
    ensures ParseErrors(L4(|Recent(history)|) + EncodeErrors(Recent(history))) == Some(Recent(history))
    ensures Recent(history) == history[if |history| <= 4096 then 0 else |history| - 4096..]
  {
    hide EncodeErrors, ErrorsFrom, L4;
    var es := Recent(history);
    assert forall e :: e in es ==> e in history;
    var body := L4(|es|) + EncodeErrors(es);
    AtSplit(body, 0, L4(|es|), EncodeErrors(es));
    assert At(body, 0, body);
    ReadsL4(body, 0, |es|);
    ReadsErrors(body, 4, es, []);
    assert [] + es == es;
  }

  /** `get_async_errors`, from the body of the answer on. */
  method GetAsyncErrors(body: seq<byte>) returns (r: Option<seq<LogEntry>>)
    ensures r == ParseErrors(body)
  {
    hide PStrAt, Signed;
    if |body| < 4 {
      return None;
    }
    var count, result := L4At(body, 0), [];
    var offset: nat := 4;
    for i := 0 to count
      invariant ErrorsFrom(body, offset, count - i, result) == ParseErrors(body)
    {
      if offset + 8 > |body| {
        return None;
      }
      var timestamp := Signed(L8At(body, offset));
      var msg := PStrAt(body, offset + 8);
      if msg.None? {
        return None;
      }
      result, offset := result + [LogEntry(timestamp, msg.value.0)], msg.value.1;
    }
    r := Some(result);
  }
}
