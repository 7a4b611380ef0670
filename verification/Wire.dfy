/** Length-prefixed strings on the wire, and writing a buffer from front to back. */
module Wire {
  import opened Prelude
  import opened Bytes

  const MAX_U16: nat := 0xFFFF
  const MAX_U32: nat := 0xFFFF_FFFF

  /** A string of at most 65535 bytes, behind its length. */
  function PStr(s: seq<byte>): (r: seq<byte>)
    requires |s| <= MAX_U16
    ensures |r| == 2 + |s|
  {
    L2(|s|) + s
  }

  /** The string at `pos` and the position behind it, if it is whole. */
  function PStrAt(data: seq<byte>, pos: nat): (r: Option<(seq<byte>, nat)>)
    ensures r.Some? ==> pos + 2 <= r.value.1 <= |data| && |r.value.0| <= MAX_U16
  {
    if pos + 2 > |data| || pos + 2 + L2At(data, pos) > |data| then None
    else Some((data[pos + 2..pos + 2 + L2At(data, pos)], pos + 2 + L2At(data, pos)))
  }

  /** The client's packing fails on longer strings. */
  function Pack(s: seq<byte>): Option<seq<byte>> { if |s| <= MAX_U16 then Some(PStr(s)) else None }

  lemma {:induction false} ReadsPStr(data: seq<byte>, pos: nat, s: seq<byte>)
    requires |s| <= MAX_U16 && At(data, pos, PStr(s))
    ensures PStrAt(data, pos) == Some((s, pos + 2 + |s|))
  {
    AtSplit(data, pos, L2(|s|), s);
    ReadsL2(data, pos, |s|);
  }

  /** What a whole string was read from. */
  lemma {:induction false} PStrIsThere(data: seq<byte>, pos: nat)
    requires PStrAt(data, pos).Some?
    ensures At(data, pos, PStr(PStrAt(data, pos).value.0)) &&
            PStrAt(data, pos).value.1 == pos + |PStr(PStrAt(data, pos).value.0)|
  {
    var n := L2At(data, pos);
    var s := data[pos + 2..pos + 2 + n];
    assert L2(n)[0] == data[pos] && L2(n)[1] == data[pos + 1];
    assert data[pos..pos + 2] == L2(n);
    AtSplit(data, pos, L2(n), s);
  }

  /** A buffer of a size fixed beforehand, and how far it is written. */
  class Writer {
    const buf: array<byte>
    var p: nat

    ghost predicate Valid()
      reads this
    {
      p <= buf.Length
    }

    function Written(): seq<byte>
      requires Valid()
      reads this, buf
    {
      buf[..p]
    }

    constructor (size: nat)
      ensures Valid() && Written() == [] && buf.Length == size && fresh(buf)
    {
      buf := new byte[size](_ => 0);
      p := 0;
    }

    /** There must be room: the size was computed so that there is. */
    method Put(bytes: seq<byte>)
      requires Valid() && p + |bytes| <= buf.Length
      modifies this, buf
      ensures Valid() && Written() == old(Written()) + bytes && p == old(p) + |bytes|
    {
      for i := 0 to |bytes|
        invariant p == old(p) + i && p <= buf.Length && buf[..p] == old(buf[..p]) + bytes[..i]
      {
        buf[p] := bytes[i];
        p := p + 1;
        assert buf[..p] == buf[..p - 1] + [bytes[i]];
      }
      assert bytes[..|bytes|] == bytes;
    }
  }
}
