/**
 The hash table: an array of slots with linear probing, no tombstones, and a
 linked list through the occupied slots. Its contract is the one of a finite
 map, for any hash function.
 */
module HashTab {
  import opened Prelude
  import opened ProbeTable
  import opened SlotList
  import opened TableLoad

  function Lookup<V>(m: map<Key, V>, k: Key): Option<V> { if k in m then Some(m[k]) else None }

  class HashTab<V> {
    const hash: Key -> nat
    const thresh: real
    var slots: array<Cell<V>>
    var head: int
    var count: nat
    ghost var order: seq<int>
    ghost var m: map<Key, V>

    /** The list is sound and leaves at least one slot empty. */
    ghost predicate ListOk()
      reads this, slots
    {
      Links(slots[..], head, order) && count == |order| < slots.Length
    }

    ghost predicate Valid()
      reads this, slots
    {
      && ListOk() && 0.0 < thresh < 1.0
      && Chains(Pairs(slots[..]), hash) && UniqueKeys(Pairs(slots[..])) && Represents(Pairs(slots[..]), m)
    }

    function Capacity(): nat
      reads this
    {
      slots.Length
    }

    constructor (capacity: nat, thresh: real, hash: Key -> nat)
      requires capacity > 0 && 0.0 < thresh < 1.0
      ensures Valid() && m == map[] && count == 0 && Capacity() == capacity
      ensures this.thresh == thresh && this.hash == hash && fresh(slots)
    {
      this.hash, this.thresh := hash, thresh;
      slots := new Cell<V>[capacity](_ => Cell(None, NULL, NULL));
      head, count, order, m := NULL, 0, [], map[];
    }

    /** The probe loop: walks from the home slot of `k`; an empty slot stops it
        before it has been all the way round. */
    method FindSlot(k: Key) returns (idx: nat)
      requires exists e :: 0 <= e < slots.Length && slots[e].pair.None?
      ensures StopsAt(Pairs(slots[..]), hash, k, idx)
    {
      ghost var e :| 0 <= e < slots.Length && slots[e].pair.None?;
      ghost var t := Pairs(slots[..]);
      idx := hash(k) % slots.Length;
      var i := 0;
      while i < slots.Length
        invariant 0 <= i <= slots.Length && t == Pairs(slots[..]) && Passed(t, hash, k, i)
        invariant i < slots.Length ==> idx < slots.Length && Dist(Home(hash, k, |t|), idx, |t|) == i
      {
        if slots[idx].pair.None? || slots[idx].pair.value.key == k {
          return;
        }
        PassOne(t, hash, k, idx);
        Advance(Home(hash, k, |t|), idx, |t|);
        idx := (idx + 1) % slots.Length;
        i := i + 1;
      }
      CannotPassAll(t, hash, k, e);
      assert false;
    }

    /** Stores the pair where the probe stops, at the front of the list if the
        slot was empty. */
    method Insert(k: Key, v: V) returns (prev: Option<V>, ghost r: nat)
      requires Links(slots[..], head, order) && count == |order| < slots.Length
      modifies this`head, this`count, this`order, slots
      ensures Links(slots[..], head, order) && count == |order|
      ensures StopsAt(old(Pairs(slots[..])), hash, k, r)
      ensures Pairs(slots[..]) == old(Pairs(slots[..]))[r := Some(Pair(k, v))]
      ensures prev == (if old(slots[r].pair).Some? then Some(old(slots[r].pair).value.val) else None)
      ensures count == old(count) + if prev == None then 1 else 0
      ensures order == if prev == None then [r] + old(order) else old(order)
    {
      EmptySlotExists(slots[..], head, order);
      var idx := FindSlot(k);
      r := idx;
      if slots[idx].pair.None? {
        PushFrontLinks(slots[..], head, order, idx, Pair(k, v));
        slots[idx] := Cell(Some(Pair(k, v)), head, NULL);
        if head != NULL {
          slots[head] := slots[head].(prev := idx);
        }
        assert slots[..] == PushFront(old(slots[..]), old(head), idx, Pair(k, v));
        head, count, order := idx, count + 1, [idx] + order;
        prev := None;
      } else {
        prev := Some(slots[idx].pair.value.val);
        ReplaceLinks(slots[..], head, order, idx, Pair(k, v));
        slots[idx] := slots[idx].(pair := Some(Pair(k, v)));
        assert slots[..] == old(slots[..])[idx := old(slots[..])[idx].(pair := Some(Pair(k, v)))];
      }
    }

    /** Takes one occupied slot out of the table and out of the list. */
    method Unlink(idx: nat) returns (pair: Pair<V>)
      requires Links(slots[..], head, order) && count == |order|
      requires idx < slots.Length && slots[idx].pair.Some?
      modifies this`head, this`count, this`order, slots
      ensures Links(slots[..], head, order) && count == |order| == old(count) - 1
      ensures Pairs(slots[..]) == old(Pairs(slots[..]))[idx := None]
      ensures pair == old(slots[idx].pair.value)
    {
      assert idx in order;
      ghost var p :| 0 <= p < |order| && order[p] == idx;
      UnlinkLinks(slots[..], head, order, p);
      UnlinkReady(slots[..], head, order, p);
      var cell := slots[idx];
      pair := cell.pair.value;
      slots[idx] := cell.(pair := None);
      if head == idx {
        head := cell.next;
        if head != NULL {
          slots[head] := slots[head].(prev := NULL);
        }
      } else {
        slots[cell.prev] := slots[cell.prev].(next := cell.next);
        if cell.next != NULL {
          slots[cell.next] := slots[cell.next].(prev := cell.prev);
        }
      }
      assert slots[..] == Unlinked(old(slots[..]), old(head), idx);
      count, order := count - 1, Without(order, p);
    }

    /** `hash_tab_lookup`. */
    method Get(k: Key) returns (found: Option<V>)
      requires Valid()
      ensures found == Lookup(m, k)
    {
      EmptySlotExists(slots[..], head, order);
      var idx := FindSlot(k);
      ProbeDecides(Pairs(slots[..]), hash, m, k, idx);
      found := if slots[idx].pair.Some? then Some(slots[idx].pair.value.val) else None;
    }

    /** `hash_tab_remove`: takes the entry out and re-inserts the rest of its cluster. */
    method Remove(k: Key) returns (removed: Option<V>)
      requires Valid()
      modifies this, slots
      ensures Valid() && slots == old(slots)
      ensures removed == Lookup(old(m), k) && m == old(m) - {k}
      ensures count == old(count) - if k in old(m) then 1 else 0
      ensures k in old(m) ==> Size(count, Capacity()) == Changed(Size(old(count), old(Capacity())), Removal, thresh)
    {
      hide Chains, Represents, UniqueKeys, StopsAt, Links;
      EmptySlotExists(slots[..], head, order);
      var at := FindSlot(k);
      ghost var t := Pairs(slots[..]);
      ProbeDecides(t, hash, m, k, at);
      if slots[at].pair.None? {
        WithoutAbsent(m, k);
        removed := None;
      } else {
        ghost var e := ClusterEnd(t, at);
        var pair := Unlink(at);
        removed, m := Some(pair.val), m - {k};
        RepairStarts(t, hash, e, at);
        RemoveRepresents(t, old(m), at);
        RepairCluster(at, e, Coord(e, at, slots.Length));
      }
    }

    /** Re-inserts every entry from the slot after `at` to the next empty slot,
        which is still the one that ended the cluster before the removal. */
    method RepairCluster(at: nat, ghost e: int, ghost p: int)
      requires Links(slots[..], head, order) && count == |order| && at < slots.Length
      requires Repairing(Pairs(slots[..]), hash, e, p, p + 1) && p == Coord(e, at, slots.Length)
      requires UniqueKeys(Pairs(slots[..])) && Represents(Pairs(slots[..]), m)
      modifies this`head, this`count, this`order, slots
      ensures Links(slots[..], head, order) && count == |order| == old(count)
      ensures Chains(Pairs(slots[..]), hash) && UniqueKeys(Pairs(slots[..])) && Represents(Pairs(slots[..]), m)
    {
      hide Chains, Represents, UniqueKeys, StopsAt, Links, Repairing;
      RepairBounds(Pairs(slots[..]), hash, e, p, p + 1);
      var idx := (at + 1) % slots.Length;
      AdvanceTo(e, at, slots.Length);
      var i := 0;
      while i < slots.Length
        invariant 0 <= i && p + 1 + i <= slots.Length && 0 <= idx < slots.Length
        invariant p + 1 + i < slots.Length ==> Coord(e, idx, slots.Length) == p + 1 + i
        invariant p + 1 + i == slots.Length ==> idx == e
        invariant Links(slots[..], head, order) && count == |order| == old(count)
        invariant Repairing(Pairs(slots[..]), hash, e, p, p + 1 + i)
        invariant UniqueKeys(Pairs(slots[..])) && Represents(Pairs(slots[..]), m)
      {
        RepairBounds(Pairs(slots[..]), hash, e, p, p + 1 + i);
        if slots[idx].pair.None? {
          break;
        }
        ReinsertOne(idx, e, p);
        AdvanceTo(e, idx, slots.Length);
        idx := (idx + 1) % slots.Length;
        i := i + 1;
      }
      RepairDone(Pairs(slots[..]), hash, e, p);
    }

    /** One turn of the repair loop. */
    method ReinsertOne(idx: nat, ghost e: int, ghost p: int)
      requires idx < slots.Length && slots[idx].pair.Some?
      requires Links(slots[..], head, order) && count == |order|
      requires Repairing(Pairs(slots[..]), hash, e, p, Coord(e, idx, slots.Length))
      requires UniqueKeys(Pairs(slots[..])) && Represents(Pairs(slots[..]), m)
      modifies this`head, this`count, this`order, slots
      ensures Links(slots[..], head, order) && count == |order| == old(count)
      ensures Repairing(Pairs(slots[..]), hash, e, p, Coord(e, idx, slots.Length) + 1)
      ensures UniqueKeys(Pairs(slots[..])) && Represents(Pairs(slots[..]), m)
    {
      hide Repairing, Represents, UniqueKeys, StopsAt, Links;
      ghost var t := Pairs(slots[..]);
      var pair := Unlink(idx);
      ShorterThanTable(slots[..], head, order, idx);
      var prev, r := Insert(pair.key, pair.val);
      RepairLands(t, hash, e, p, idx, r);
      RepairStep(t, hash, e, p, idx, r);
      MoveRepresents(t, m, idx, r);
    }

    /** Moves every entry, in list order, to an array of twice the size. */
    method Rehash(allocOk: bool) returns (ok: bool)
      requires Valid()
      modifies this`slots, this`head, this`count, this`order, this`m
      ensures Valid() && ok == allocOk && m == old(m) && count == old(count)
      ensures if ok then fresh(slots) && Capacity() == 2 * old(Capacity()) else slots == old(slots)
    {
      if !allocOk {
        return false;
      }
      var former, ent := slots, head;
      ghost var s, listed, entries := slots[..], order, m;
      slots := new Cell<V>[2 * slots.Length](_ => Cell(None, NULL, NULL));
      head, count, order, m := NULL, 0, [], map[];
      EmptyTable<V>(slots[..], hash);
      Refill(former, ent, s, listed);
      AllEntries(s, ent, listed, entries);
      return true;
    }

    /** Inserts the entries of another array, following its list from `first`. */
    method Refill(former: array<Cell<V>>, first: int, ghost s: seq<Cell<V>>, ghost listed: seq<int>)
      requires former != slots && former[..] == s && Links(s, first, listed) && UniqueKeys(Pairs(s))
      requires Links(slots[..], head, order) && count == |order| == 0 && |listed| < slots.Length && m == map[]
      requires Chains(Pairs(slots[..]), hash) && UniqueKeys(Pairs(slots[..])) && Represents(Pairs(slots[..]), m)
      modifies this`head, this`count, this`order, this`m, slots
      ensures Links(slots[..], head, order) && count == |order| == |listed|
      ensures Chains(Pairs(slots[..]), hash) && UniqueKeys(Pairs(slots[..])) && Represents(Pairs(slots[..]), m)
      ensures m == EntriesOf(s, listed)
    {
      hide Chains, Represents, UniqueKeys, StopsAt, Links, EntriesOf, ListedPairs;
      var ent := first;
      ghost var p := 0;
      ListStart(s, first, listed);
      while ent != NULL
        invariant former[..] == s && 0 <= p <= |listed| && ent == At(listed, p)
        invariant Links(slots[..], head, order) && count == |order| == p
        invariant Chains(Pairs(slots[..]), hash) && UniqueKeys(Pairs(slots[..])) && Represents(Pairs(slots[..]), m)
        invariant m == EntriesOf(s, listed[..p])
        decreases |listed| - p
      {
        NextEntry(s, first, listed, p);
        NotYetCopied(s, first, listed, p);
        var pair := former[ent].pair.value;
        ghost var t := Pairs(slots[..]);
        var prev, r := Insert(pair.key, pair.val);
        ProbeDecides(t, hash, m, pair.key, r);
        StoreKeeps(t, hash, m, pair.key, pair.val, r);
        m := m[pair.key := pair.val];
        ent, p := former[ent].next, p + 1;
      }
      ListEnd(s, first, listed, p);
      assert listed[..p] == listed;
    }

    /** `hash_tab_add`; the two flags say whether the key copy and a larger
        array can be allocated. */
    method Add(k: Key, v: V, keyOk: bool, growOk: bool) returns (err: bool, prev: Option<V>)
      requires Valid()
      modifies this, slots
      ensures Valid() && (slots == old(slots) || fresh(slots))
      ensures err <==> !keyOk || (NeedRehash(old(count), old(Capacity()), thresh) && !growOk)
      ensures err ==> m == old(m) && prev == None && count == old(count) && slots == old(slots)
      ensures !err ==> m == old(m)[k := v] && prev == Lookup(old(m), k)
      ensures !err ==> (Size(count, Capacity()) ==
                Changed(Size(old(count), old(Capacity())), if k in old(m) then AddPresent else AddNew, thresh))
    {
      hide Chains, Represents, UniqueKeys, StopsAt, Links;
      if !keyOk {
        return true, None;
      }
      AddLeavesRoom(count, slots.Length, thresh);
      if NeedRehash(count, slots.Length, thresh) {
        var ok := Rehash(growOk);
        if !ok {
          return true, None;
        }
      }
      ghost var t := Pairs(slots[..]);
      ghost var r;
      err := false;
      prev, r := Insert(k, v);
      ProbeDecides(t, hash, m, k, r);
      StoreKeeps(t, hash, m, k, v, r);
      m := m[k := v];
    }

    /** A fresh iterator followed to its end. */
    method Entries() returns (es: seq<Pair<V>>)
      requires Valid()
      ensures |es| == count == |m|
      ensures forall p, q :: 0 <= p < q < |es| ==> es[p].key != es[q].key
      ensures forall p :: 0 <= p < |es| ==> es[p].key in m && m[es[p].key] == es[p].val
      ensures forall k :: k in m ==> HasKey(es, k)
    {
      hide Chains, Represents, UniqueKeys, StopsAt, Links, Pairs, ListedPairs, EntriesOf;
      es := [];
      var next := head;
      ghost var cells := slots[..];
      ListStart(cells, head, order);
      while next != NULL
        invariant |es| <= |order| && next == At(order, |es|)
        invariant es == ListedPairs(cells, order[..|es|])
        decreases |order| - |es|
      {
        NextEntry(cells, head, order, |es|);
        assert cells[next] == slots[next];
        es := es + [slots[next].pair.value];
        next := slots[next].next;
      }
      ListEnd(cells, head, order, |es|);
      assert order[..|es|] == order;
      ListedExactly(cells, head, order, m);
    }
  }

  /** The pairs found by following the list. */
  ghost function ListedPairs<V>(s: seq<Cell<V>>, order: seq<int>): seq<Pair<V>> {
    if order == [] then []
    else
      var i := order[|order| - 1];
      ListedPairs(s, order[..|order| - 1]) + if 0 <= i < |s| && s[i].pair.Some? then [s[i].pair.value] else []
  }

  ghost function EntriesOf<V>(s: seq<Cell<V>>, order: seq<int>): map<Key, V> {
    if order == [] then map[]
    else
      var i := order[|order| - 1];
      var before := EntriesOf(s, order[..|order| - 1]);
      if 0 <= i < |s| && s[i].pair.Some? then before[s[i].pair.value.key := s[i].pair.value.val] else before
  }

  lemma {:induction false} ListStart<V>(s: seq<Cell<V>>, head: int, order: seq<int>)
    requires Links(s, head, order)
    ensures head == At(order, 0) && EntriesOf(s, order[..0]) == map[] && ListedPairs(s, order[..0]) == []
  {
  }

  lemma {:induction false} ListEnd<V>(s: seq<Cell<V>>, head: int, order: seq<int>, p: nat)
    requires Links(s, head, order) && p <= |order| && At(order, p) == NULL
    ensures p == |order|
  {
    assert p < |order| ==> Linked(s, order, p);
  }

  lemma {:induction false} NextEntry<V>(s: seq<Cell<V>>, head: int, order: seq<int>, p: nat)
    requires Links(s, head, order) && p <= |order| && At(order, p) != NULL
    ensures p < |order| && 0 <= order[p] < |s| && s[order[p]].pair.Some? && s[order[p]].next == At(order, p + 1)
    ensures var pair := s[order[p]].pair.value;
            && EntriesOf(s, order[..p + 1]) == EntriesOf(s, order[..p])[pair.key := pair.val]
            && ListedPairs(s, order[..p + 1]) == ListedPairs(s, order[..p]) + [pair]
  {
    assert Linked(s, order, p);
    assert order[..p + 1][..p] == order[..p];
  }

  lemma {:induction false} OneMoreLink<V>(s: seq<Cell<V>>, head: int, order: seq<int>, p: nat)
    requires Links(s, head, order) && p < |order|
    ensures 0 <= order[p] < |s| && s[order[p]].pair.Some?
    ensures ListedPairs(s, order[..p + 1]) == ListedPairs(s, order[..p]) + [s[order[p]].pair.value]
  {
    hide ListedPairs, EntriesOf;
    assert Linked(s, order, p) && At(order, p) != NULL;
    NextEntry(s, head, order, p);
  }

  lemma {:induction false} ListedAt<V>(s: seq<Cell<V>>, head: int, order: seq<int>, n: nat)
    requires Links(s, head, order) && n <= |order|
    ensures var es := ListedPairs(s, order[..n]);
            |es| == n && forall p :: 0 <= p < n ==> 0 <= order[p] < |s| && s[order[p]].pair == Some(es[p])
    decreases n
  {
    if n == 0 {
    } else {
      OneMoreLink(s, head, order, n - 1);
      ListedAt(s, head, order, n - 1);
      hide ListedPairs, Links;
    }
  }

  /** Following the list visits every entry of the map, each exactly once. */
  lemma {:induction false} ListedExactly<V>(s: seq<Cell<V>>, head: int, order: seq<int>, m: map<Key, V>)
    requires Links(s, head, order) && UniqueKeys(Pairs(s)) && Represents(Pairs(s), m)
    ensures var es := ListedPairs(s, order);
            && |es| == |order| == |m|
            && (forall p, q :: 0 <= p < q < |es| ==> es[p].key != es[q].key)
            && (forall p :: 0 <= p < |es| ==> es[p].key in m && m[es[p].key] == es[p].val)
            && (forall k :: k in m ==> HasKey(es, k))
  {
    hide ListedPairs;
    var t, es := Pairs(s), ListedPairs(s, order);
    assert order[..|order|] == order;
    ListedAt(s, head, order, |order|);
    forall p | 0 <= p < |es| ensures Occupied(t, order[p]) && t[order[p]].value == es[p] {
      assert Linked(s, order, p);
    }
    forall k | k in m ensures HasKey(es, k) {
      var i :| Occupied(t, i) && t[i].value.key == k;
      assert i in order;
      var p :| 0 <= p < |order| && order[p] == i;
      assert es[p].key == k;
    }
    SizeFromKeys(es, m.Keys);
  }

  ghost predicate HasKey<V>(es: seq<Pair<V>>, k: Key) { exists p :: 0 <= p < |es| && es[p].key == k }

  lemma {:induction false} SizeFromKeys<V>(es: seq<Pair<V>>, keys: set<Key>)
    requires forall p, q :: 0 <= p < q < |es| ==> es[p].key != es[q].key
    requires forall p :: 0 <= p < |es| ==> es[p].key in keys
    requires forall k :: k in keys ==> HasKey(es, k)
    ensures |keys| == |es|
    decreases |es|
  {
    if es == [] {
      assert keys == {};
    } else {
      var n := |es| - 1;
      var rest := keys - {es[n].key};
      forall k | k in rest ensures HasKey(es[..n], k) {
        assert HasKey(es, k);
        var p :| 0 <= p < |es| && es[p].key == k;
        assert es[..n][p].key == k;
      }
      SizeFromKeys(es[..n], rest);
    }
  }

  lemma {:induction false} NotYetCopied<V>(s: seq<Cell<V>>, head: int, order: seq<int>, p: nat)
    requires Links(s, head, order) && UniqueKeys(Pairs(s)) && p < |order|
    ensures 0 <= order[p] < |s| && s[order[p]].pair.Some?
    ensures s[order[p]].pair.value.key !in EntriesOf(s, order[..p])
  {
    assert Linked(s, order, p);
    var t, es, k := Pairs(s), ListedPairs(s, order[..p]), s[order[p]].pair.value.key;
    ListedAt(s, head, order, p);
    forall q | 0 <= q < |es| ensures Occupied(t, order[q]) && t[order[q]].value == es[q] && order[q] != order[p] {
      assert Linked(s, order, q);
    }
    assert Occupied(t, order[p]);
    if k in EntriesOf(s, order[..p]) {
      EntryIsListed(s, order[..p], k);
    }
  }

  lemma {:induction false} AllEntries<V>(s: seq<Cell<V>>, head: int, order: seq<int>, m: map<Key, V>)
    requires Links(s, head, order) && UniqueKeys(Pairs(s)) && Represents(Pairs(s), m)
    ensures EntriesOf(s, order) == m
  {
    ListedExactly(s, head, order, m);
    EntriesOfListed(s, order);
    var es, e := ListedPairs(s, order), EntriesOf(s, order);
    forall k | k in e ensures k in m {
      EntryIsListed(s, order, k);
    }
    forall k | k in m ensures k in e && e[k] == m[k] {
      assert HasKey(es, k);
    }
  }

  lemma {:induction false} EntryIsListed<V>(s: seq<Cell<V>>, order: seq<int>, k: Key)
    requires k in EntriesOf(s, order)
    ensures HasKey(ListedPairs(s, order), k)
    decreases |order|
  {
    var before := order[..|order| - 1];
    var listed, es := ListedPairs(s, before), ListedPairs(s, order);
    if k in EntriesOf(s, before) {
      EntryIsListed(s, before, k);
      var p :| 0 <= p < |listed| && listed[p].key == k;
      assert es[p].key == k;
    } else {
      assert es[|es| - 1].key == k;
    }
  }

  ghost predicate DistinctKeys<V>(es: seq<Pair<V>>) {
    forall p, q :: 0 <= p < q < |es| ==> es[p].key != es[q].key
  }

  /** What the list holds last is what the entries have added last. */
  lemma {:induction false} OneMoreListed<V>(s: seq<Cell<V>>, order: seq<int>)
    requires order != []
    ensures var n := |order| - 1;
            var es, listed, before := ListedPairs(s, order), ListedPairs(s, order[..n]), EntriesOf(s, order[..n]);
            || (es == listed && EntriesOf(s, order) == before)
            || (|es| == |listed| + 1 && es == listed + [es[|listed|]] &&
                EntriesOf(s, order) == before[es[|listed|].key := es[|listed|].val])
  {
  }

  lemma {:induction false} EntriesOfListed<V>(s: seq<Cell<V>>, order: seq<int>)
    requires DistinctKeys(ListedPairs(s, order))
    ensures Holds(EntriesOf(s, order), ListedPairs(s, order))
    decreases |order|
  {
    if order == [] {
    } else {
      var es, listed := ListedPairs(s, order), ListedPairs(s, order[..|order| - 1]);
      OneMoreListed(s, order);
      hide ListedPairs, EntriesOf;
      assert |listed| <= |es| && es[..|listed|] == listed;
      assert forall p :: 0 <= p < |listed| ==> listed[p] == es[p];
      EntriesOfListed(s, order[..|order| - 1]);
    }
  }

  ghost predicate Holds<V>(e: map<Key, V>, es: seq<Pair<V>>) {
    forall p :: 0 <= p < |es| ==> es[p].key in e && e[es[p].key] == es[p].val
  }

  lemma {:induction false} EmptyTable<V>(s: seq<Cell<V>>, hash: Key -> nat)
    requires forall i :: 0 <= i < |s| ==> s[i].pair.None?
    ensures Links(s, NULL, []) && Chains(Pairs(s), hash) && UniqueKeys(Pairs(s)) && Represents(Pairs(s), map[])
  {
  }

  // ----- whole runs against a plain map -----

  datatype Command<V> = AddCmd(key: Key, val: V, keyOk: bool, growOk: bool) | GetCmd(key: Key) | RemoveCmd(key: Key)

  datatype Reply<V> = Failed | Reply(previous: Option<V>)

  /** What a finite map answers; only an add whose allocation fails may fail. */
  ghost predicate Agrees<V>(m: map<Key, V>, cs: seq<Command<V>>, rs: seq<Reply<V>>, final: map<Key, V>)
    decreases |cs|
  {
    if cs == [] then rs == [] && final == m
    else
      && |rs| == |cs|
      && match cs[0]
         case GetCmd(k) => rs[0] == Reply(Lookup(m, k)) && Agrees(m, cs[1..], rs[1..], final)
         case RemoveCmd(k) => rs[0] == Reply(Lookup(m, k)) && Agrees(m - {k}, cs[1..], rs[1..], final)
         case AddCmd(k, v, keyOk, growOk) =>
           if rs[0] == Failed then !(keyOk && growOk) && Agrees(m, cs[1..], rs[1..], final)
           else rs[0] == Reply(Lookup(m, k)) && Agrees(m[k := v], cs[1..], rs[1..], final)
  }

  /**
   Any sequence of operations, any hash function, any threshold and initial
   capacity: the table answers as a finite map does.
   */
  method RunCommands<V>(tab: HashTab<V>, cs: seq<Command<V>>) returns (rs: seq<Reply<V>>)
    requires tab.Valid()
    modifies tab, tab.slots
    ensures tab.Valid() && (tab.slots == old(tab.slots) || fresh(tab.slots))
    ensures Agrees(old(tab.m), cs, rs, tab.m)
    decreases |cs|
  {
    if cs == [] {
      return [];
    }
    var r: Reply<V>;
    match cs[0] {
      case GetCmd(k) =>
        var found := tab.Get(k);
        r := Reply(found);
      case RemoveCmd(k) =>
        var removed := tab.Remove(k);
        r := Reply(removed);
      case AddCmd(k, v, keyOk, growOk) =>
        var err, prev := tab.Add(k, v, keyOk, growOk);
        r := if err then Failed else Reply(prev);
    }
    var rest := RunCommands(tab, cs[1..]);
    rs := [r] + rest;
    assert rs[1..] == rest;
  }

  lemma {:induction false} WithoutAbsent<V>(m: map<Key, V>, k: Key)
    requires k !in m
    ensures m - {k} == m
  {
  }

  lemma {:induction false} ShorterThanTable<V>(s: seq<Cell<V>>, head: int, order: seq<int>, e: int)
    requires Links(s, head, order) && 0 <= e < |s| && s[e].pair.None?
    ensures |order| < |s|
  {
    forall p | 0 <= p < |order| ensures 0 <= order[p] < |s| && order[p] != e {
      assert Linked(s, order, p);
    }
    FitsIn(|s|, [e] + order);
  }

  /** Distinct slot numbers cannot outnumber the slots. */
  lemma {:induction false} FitsIn(n: nat, order: seq<int>)
    requires Distinct(order) && forall p :: 0 <= p < |order| ==> 0 <= order[p] < n
    ensures |order| <= n
    decreases n
  {
    if order == [] {
    } else {
      assert 0 <= order[0] < n;
      if p :| 0 <= p < |order| && order[p] == n - 1 {
        FitsIn(n - 1, Without(order, p));
      } else {
        FitsIn(n - 1, order);
      }
    }
  }

  /** The first empty slot after an occupied one. */
  lemma {:induction false} ClusterEnd<V>(t: Slots<V>, at: int) returns (e: int)
    requires Occupied(t, at) && exists j :: 0 <= j < |t| && t[j].None?
    ensures 0 <= e < |t| && t[e].None?
    ensures forall j :: 0 <= j < |t| && Coord(e, at, |t|) < Coord(e, j, |t|) ==> t[j].Some?
  {
    e :| 0 <= e < |t| && t[e].None?;
    while exists j :: 0 <= j < |t| && t[j].None? && Dist(at, j, |t|) < Dist(at, e, |t|)
      invariant 0 <= e < |t| && t[e].None?
      decreases Dist(at, e, |t|)
    {
      var j :| 0 <= j < |t| && t[j].None? && Dist(at, j, |t|) < Dist(at, e, |t|);
      e := j;
    }
  }

  lemma {:induction false} ReplaceLinks<V>(s: seq<Cell<V>>, head: int, order: seq<int>, i: int, pair: Pair<V>)
    requires Links(s, head, order) && 0 <= i < |s| && s[i].pair.Some?
    ensures var s' := s[i := s[i].(pair := Some(pair))];
            Links(s', head, order) && Pairs(s') == Pairs(s)[i := Some(pair)]
  {
    var s' := s[i := s[i].(pair := Some(pair))];
    forall p | 0 <= p < |order| ensures Linked(s', order, p) {
      assert Linked(s, order, p);
    }
  }
}
