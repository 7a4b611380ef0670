/**
 The doubly linked list threaded through the slots of a hash table: which
 slots it visits and in which order, and how pushing and unlinking change it.
 Links are slot numbers; `NULL` stands for the null pointer.
 */
module SlotList {
  import opened Prelude
  import opened ProbeTable

  const NULL := -1

  datatype Cell<V> = Cell(pair: Option<Pair<V>>, next: int, prev: int)

  function Pairs<V>(s: seq<Cell<V>>): (t: Slots<V>)
    ensures |t| == |s| && forall i :: 0 <= i < |s| ==> t[i] == s[i].pair
  {
    seq(|s|, i requires 0 <= i < |s| => s[i].pair)
  }

  /** The slot at place `p` of the list, or null past either end. */
  function At(order: seq<int>, p: int): int { if 0 <= p < |order| then order[p] else NULL }

  ghost predicate Distinct(order: seq<int>) {
    forall p, q :: 0 <= p < q < |order| ==> order[p] != order[q]
  }

  /** Starting at `head`, the list visits exactly the occupied slots, each once,
      in the order `order`; going back along `prev` is the inverse. */
  ghost predicate Links<V>(s: seq<Cell<V>>, head: int, order: seq<int>) {
    && Distinct(order)
    && head == At(order, 0)
    && (forall i :: 0 <= i < |s| && s[i].pair.Some? ==> i in order)
    && (forall p :: 0 <= p < |order| ==> Linked(s, order, p))
  }

  ghost predicate Linked<V>(s: seq<Cell<V>>, order: seq<int>, p: int)
    requires 0 <= p < |order|
  {
    var i := order[p];
    0 <= i < |s| && s[i].pair.Some? && s[i].next == At(order, p + 1) && s[i].prev == At(order, p - 1)
  }

  /** The list is exactly as long as there are occupied slots, so a list shorter
      than the table leaves a slot empty. */
  lemma {:induction false} EmptySlotExists<V>(s: seq<Cell<V>>, head: int, order: seq<int>)
    requires Links(s, head, order) && |order| < |s|
    ensures exists e :: 0 <= e < |s| && s[e].pair.None?
  {
    if forall i :: 0 <= i < |s| ==> s[i].pair.Some? {
      CoversTooMany(|s|, order);
    }
  }

  lemma {:induction false} CoversTooMany(n: nat, order: seq<int>)
    requires forall i :: 0 <= i < n ==> i in order
    ensures n <= |order|
    decreases n
  {
    if n == 0 {
    } else {
      assert n - 1 in order;
      var p :| 0 <= p < |order| && order[p] == n - 1;
      var rest := order[..p] + order[p + 1..];
      forall i | 0 <= i < n - 1 ensures i in rest {
        assert i in order;
        var q :| 0 <= q < |order| && order[q] == i;
        assert rest[if q < p then q else q - 1] == i;
      }
      CoversTooMany(n - 1, rest);
    }
  }

  function PushFront<V>(s: seq<Cell<V>>, head: int, r: int, pair: Pair<V>): seq<Cell<V>>
    requires 0 <= r < |s| && (head == NULL || 0 <= head < |s|)
  {
    var s1 := s[r := Cell(Some(pair), head, NULL)];
    if head == NULL then s1 else s1[head := s1[head].(prev := r)]
  }

  lemma {:induction false} PushFrontLinks<V>(s: seq<Cell<V>>, head: int, order: seq<int>, r: int, pair: Pair<V>)
    requires Links(s, head, order) && 0 <= r < |s| && s[r].pair.None?
    ensures head == NULL || 0 <= head < |s|
    ensures Links(PushFront(s, head, r, pair), r, [r] + order)
    ensures Pairs(PushFront(s, head, r, pair)) == Pairs(s)[r := Some(pair)]
  {
    assert order != [] ==> Linked(s, order, 0);
    var s', order' := PushFront(s, head, r, pair), [r] + order;
    NotListed(s, head, order, r);
    forall p | 0 <= p < |order'| ensures Linked(s', order', p) {
      if p > 0 {
        assert Linked(s, order, p - 1) && order'[p] == order[p - 1];
      }
    }
    forall i | 0 <= i < |s'| && s'[i].pair.Some? ensures i in order' {
      assert i == r || i in order;
    }
  }

  lemma {:induction false} NotListed<V>(s: seq<Cell<V>>, head: int, order: seq<int>, r: int)
    requires Links(s, head, order) && 0 <= r < |s| && s[r].pair.None?
    ensures forall p :: 0 <= p < |order| ==> order[p] != r
  {
    forall p | 0 <= p < |order| ensures order[p] != r {
      assert Linked(s, order, p);
    }
  }

  /** The links that unlinking slot `i` follows exist. */
  predicate CanUnlink<V>(s: seq<Cell<V>>, head: int, i: int) {
    && 0 <= i < |s|
    && (s[i].next == NULL || (0 <= s[i].next < |s| && s[i].next != i))
    && (head == i || (0 <= s[i].prev < |s| && s[i].prev != i))
  }

  function Unlinked<V>(s: seq<Cell<V>>, head: int, i: int): seq<Cell<V>>
    requires CanUnlink(s, head, i)
  {
    var s1 := s[i := s[i].(pair := None)];
    var next := s1[i].next;
    if head == i then
      if next != NULL then s1[next := s1[next].(prev := NULL)] else s1
    else
      var s2 := s1[s1[i].prev := s1[s1[i].prev].(next := next)];
      if next != NULL then s2[next := s2[next].(prev := s1[i].prev)] else s2
  }

  lemma {:induction false} UnlinkReady<V>(s: seq<Cell<V>>, head: int, order: seq<int>, p: nat)
    requires Links(s, head, order) && p < |order|
    ensures CanUnlink(s, head, order[p]) && (head == order[p] <==> p == 0)
  {
    assert Linked(s, order, p);
    if p > 0 { assert Linked(s, order, p - 1); }
    if p + 1 < |order| { assert Linked(s, order, p + 1); }
  }

  lemma {:induction false} UnlinkLinks<V>(s: seq<Cell<V>>, head: int, order: seq<int>, p: nat)
    requires Links(s, head, order) && p < |order|
    ensures CanUnlink(s, head, order[p])
    ensures var i := order[p];
            var s' := Unlinked(s, head, i);
            && Links(s', if head == i then s[i].next else head, Without(order, p))
            && Pairs(s') == Pairs(s)[i := None]
  {
    UnlinkReady(s, head, order, p);
    var i := order[p];
    var s', order' := Unlinked(s, head, i), Without(order, p);
    assert Linked(s, order, p);
    assert At(order', 0) == if p == 0 then At(order, 1) else At(order, 0);
    forall q | 0 <= q < |order'| ensures Linked(s', order', q) {
      assert Linked(s, order, if q < p then q else q + 1) && Linked(s, order, p);
      if p > 0 { assert Linked(s, order, p - 1); }
      if p + 1 < |order| { assert Linked(s, order, p + 1); }
    }
    forall k | 0 <= k < |s'| && s'[k].pair.Some? ensures k in order' {
      var q :| 0 <= q < |order| && order[q] == k;
      assert order'[if q < p then q else q - 1] == k;
    }
  }
}
