/** Numbers as bytes, in either order, and pieces of a byte sequence. */
module Bytes {
  import opened Prelude

  /** `piece` sits in `data` at `pos`. */
  predicate At(data: seq<byte>, pos: nat, piece: seq<byte>) {
    pos + |piece| <= |data| && data[pos..pos + |piece|] == piece
  }

  lemma {:induction false} AtSplit(data: seq<byte>, pos: nat, a: seq<byte>, b: seq<byte>)
    ensures At(data, pos, a + b) <==> At(data, pos, a) && At(data, pos + |a|, b)
  {
    if pos + |a| + |b| <= |data| {
      assert data[pos..pos + |a| + |b|] == data[pos..pos + |a|] + data[pos + |a|..pos + |a| + |b|];
      var both := data[pos..pos + |a + b|];
      assert both[..|a|] == data[pos..pos + |a|] && both[|a|..] == data[pos + |a|..pos + |a| + |b|];
      assert (a + b)[..|a|] == a && (a + b)[|a|..] == b;
    }
  }

  lemma {:induction false} AtStart(piece: seq<byte>, rest: seq<byte>)
    ensures At(piece + rest, 0, piece)
  {
  }

  lemma {:induction false} Join(a: seq<byte>, b: seq<byte>, c: seq<byte>)
    ensures a + b + c == a + (b + c)
  {
  }

  // ----- most significant byte first -----

  function U2(n: nat): (r: seq<byte>)
    requires n < 0x1_0000
    ensures |r| == 2
  {
    [(n / 0x100) as byte, (n % 0x100) as byte]
  }

  function U4(n: nat): (r: seq<byte>)
    requires n < 0x1_0000_0000
    ensures |r| == 4
  {
    U2(n / 0x1_0000) + U2(n % 0x1_0000)
  }

  function U2At(data: seq<byte>, pos: nat): (n: nat)
    requires pos + 2 <= |data|
    ensures n < 0x1_0000
  {
    data[pos] as nat * 0x100 + data[pos + 1] as nat
  }

  function U4At(data: seq<byte>, pos: nat): (n: nat)
    requires pos + 4 <= |data|
    ensures n < 0x1_0000_0000
  {
    U2At(data, pos) * 0x1_0000 + U2At(data, pos + 2)
  }

  lemma {:induction false} ReadsU2(data: seq<byte>, pos: nat, n: nat)
    requires n < 0x1_0000 && At(data, pos, U2(n))
    ensures U2At(data, pos) == n
  {
    assert data[pos] == data[pos..pos + 2][0] && data[pos + 1] == data[pos..pos + 2][1];
  }

  lemma {:induction false} ReadsU4(data: seq<byte>, pos: nat, n: nat)
    requires n < 0x1_0000_0000 && At(data, pos, U4(n))
    ensures U4At(data, pos) == n
  {
    AtSplit(data, pos, U2(n / 0x1_0000), U2(n % 0x1_0000));
    ReadsU2(data, pos, n / 0x1_0000);
    ReadsU2(data, pos + 2, n % 0x1_0000);
  }

  // ----- least significant byte first -----

  function L2(n: nat): (r: seq<byte>)
    requires n < 0x1_0000
    ensures |r| == 2
  {
    [(n % 0x100) as byte, (n / 0x100) as byte]
  }

  function L4(n: nat): (r: seq<byte>)
    requires n < 0x1_0000_0000
    ensures |r| == 4
  {
    L2(n % 0x1_0000) + L2(n / 0x1_0000)
  }

  function L8(n: nat): (r: seq<byte>)
    requires n < 0x1_0000_0000_0000_0000
    ensures |r| == 8
  {
    L4(n % 0x1_0000_0000) + L4(n / 0x1_0000_0000)
  }

  function L2At(data: seq<byte>, pos: nat): (n: nat)
    requires pos + 2 <= |data|
    ensures n < 0x1_0000
  {
    data[pos] as nat + 0x100 * data[pos + 1] as nat
  }

  function L4At(data: seq<byte>, pos: nat): (n: nat)
    requires pos + 4 <= |data|
    ensures n < 0x1_0000_0000
  {
    L2At(data, pos) + 0x1_0000 * L2At(data, pos + 2)
  }

  function L8At(data: seq<byte>, pos: nat): (n: nat)
    requires pos + 8 <= |data|
    ensures n < 0x1_0000_0000_0000_0000
  {
    L4At(data, pos) + 0x1_0000_0000 * L4At(data, pos + 4)
  }

  lemma {:induction false} ReadsL2(data: seq<byte>, pos: nat, n: nat)
    requires n < 0x1_0000 && At(data, pos, L2(n))
    ensures pos + 2 <= |data| && L2At(data, pos) == n
  {
    assert data[pos] == data[pos..pos + 2][0] && data[pos + 1] == data[pos..pos + 2][1];
  }

  /** Writing a number that was read gives the bytes it was read from. */
  lemma {:induction false} L4Back(data: seq<byte>, pos: nat)
    requires pos + 4 <= |data|
    ensures L4(L4At(data, pos)) == data[pos..pos + 4]
  {
    var low, high := L2At(data, pos), L2At(data, pos + 2);
    assert L4At(data, pos) % 0x1_0000 == low && L4At(data, pos) / 0x1_0000 == high;
    assert data[pos..pos + 4] == [data[pos], data[pos + 1]] + [data[pos + 2], data[pos + 3]];
  }

  lemma {:induction false} ReadsL4(data: seq<byte>, pos: nat, n: nat)
    requires n < 0x1_0000_0000 && At(data, pos, L4(n))
    ensures pos + 4 <= |data| && L4At(data, pos) == n
  {
    AtSplit(data, pos, L2(n % 0x1_0000), L2(n / 0x1_0000));
    ReadsL2(data, pos, n % 0x1_0000);
    ReadsL2(data, pos + 2, n / 0x1_0000);
  }

  lemma {:induction false} ReadsL8(data: seq<byte>, pos: nat, n: nat)
    requires n < 0x1_0000_0000_0000_0000 && At(data, pos, L8(n))
    ensures pos + 8 <= |data| && L8At(data, pos) == n
  {
    AtSplit(data, pos, L4(n % 0x1_0000_0000), L4(n / 0x1_0000_0000));
    ReadsL4(data, pos, n % 0x1_0000_0000);
    ReadsL4(data, pos + 4, n / 0x1_0000_0000);
  }

  lemma {:induction false} AtInside(data: seq<byte>, pos: nat, piece: seq<byte>)
    requires At(data, pos, piece)
    ensures pos + |piece| <= |data|
  {
  }

  /** Sixty-four bits as a signed number, and back. */
  function Unsigned(x: int): (n: nat)
    requires -0x8000_0000_0000_0000 <= x < 0x8000_0000_0000_0000
    ensures n < 0x1_0000_0000_0000_0000
  {
    if x < 0 then x + 0x1_0000_0000_0000_0000 else x
  }

  function Signed(n: nat): int { if n >= 0x8000_0000_0000_0000 then n - 0x1_0000_0000_0000_0000 else n }

  lemma {:induction false} SignedUnsigned(x: int)
    requires -0x8000_0000_0000_0000 <= x < 0x8000_0000_0000_0000
    ensures Signed(Unsigned(x)) == x
  {
  }
}
