/**
 Open addressing with linear probing, as a property of the sequence of slots:
 when every key can be found from its home slot, where a new key goes, and why
 re-inserting the rest of a cluster repairs the table after a removal.

 Nothing here depends on the hash function or on the list threaded through
 the slots.
 */
module ProbeTable {
  import opened Prelude

  type Key = seq<byte>
  datatype Pair<V> = Pair(key: Key, val: V)
  type Slots<V> = seq<Option<Pair<V>>>

  /** How many steps forward, with wrap-around, lead from slot `a` to slot `b`. */
  function Dist(a: int, b: int, n: int): int { if a <= b then b - a else b - a + n }

  function Home(hash: Key -> nat, k: Key, n: nat): (h: nat)
    requires n > 0
    ensures h < n
  {
    hash(k) % n
  }

  ghost predicate Occupied<V>(t: Slots<V>, i: int) { 0 <= i < |t| && t[i].Some? }

  /** Slot `i` can be reached from slot `h` through occupied slots only. */
  ghost predicate Reach<V>(t: Slots<V>, h: int, i: int) {
    forall j :: 0 <= j < |t| && Dist(h, j, |t|) < Dist(h, i, |t|) ==> t[j].Some?
  }

  ghost predicate Chained<V>(t: Slots<V>, hash: Key -> nat, i: int)
    requires Occupied(t, i)
  {
    Reach(t, Home(hash, t[i].value.key, |t|), i)
  }

  /** Every stored key is reachable from its home slot. */
  ghost predicate Chains<V>(t: Slots<V>, hash: Key -> nat) {
    forall i :: Occupied(t, i) ==> Chained(t, hash, i)
  }

  ghost predicate UniqueKeys<V>(t: Slots<V>) {
    forall i, j :: Occupied(t, i) && Occupied(t, j) && i != j ==> t[i].value.key != t[j].value.key
  }

  /** The table holds exactly the pairs of `m`. */
  ghost predicate Represents<V>(t: Slots<V>, m: map<Key, V>) {
    && (forall i :: Occupied(t, i) ==> t[i].value.key in m && m[t[i].value.key] == t[i].value.val)
    && (forall k :: k in m ==> exists i :: Occupied(t, i) && t[i].value.key == k)
  }

  /** `r` is where a probe for `k` stops: the first slot from its home that is
      empty or holds `k`. */
  ghost predicate StopsAt<V>(t: Slots<V>, hash: Key -> nat, k: Key, r: int) {
    && 0 <= r < |t|
    && (t[r].Some? ==> t[r].value.key == k)
    && forall j :: 0 <= j < |t| && Dist(Home(hash, k, |t|), j, |t|) < Dist(Home(hash, k, |t|), r, |t|) ==>
         t[j].Some? && t[j].value.key != k
  }

  /** The first `steps` slots of the probe for `k` are occupied by other keys. */
  ghost predicate Passed<V>(t: Slots<V>, hash: Key -> nat, k: Key, steps: int)
    requires |t| > 0
  {
    forall j :: 0 <= j < |t| && Dist(Home(hash, k, |t|), j, |t|) < steps ==> t[j].Some? && t[j].value.key != k
  }

  lemma {:induction false} NextSlot(idx: nat, n: nat)
    requires idx < n
    ensures (idx + 1) % n == if idx + 1 < n then idx + 1 else 0
  {
    var q, r := (idx + 1) / n, (idx + 1) % n;
    assert idx + 1 == q * n + r;
    TwiceIsMore(q, n);
    assert q == 0 || q == 1;
  }

  lemma {:induction false} TwiceIsMore(q: nat, n: nat)
    ensures q >= 2 ==> q * n >= 2 * n
  {
  }

  /** One step forward, with wrap-around. */
  lemma {:induction false} Advance(h: nat, idx: nat, n: nat)
    requires h < n && idx < n
    ensures 0 <= (idx + 1) % n < n
    ensures Dist(h, idx, n) + 1 < n ==> Dist(h, (idx + 1) % n, n) == Dist(h, idx, n) + 1
  {
    NextSlot(idx, n);
  }

  /** Stepping on from the last position counted from `e` arrives at `e`. */
  lemma {:induction false} AdvanceTo(e: nat, idx: nat, n: nat)
    requires e < n && idx < n
    ensures 0 <= (idx + 1) % n < n
    ensures if Coord(e, idx, n) + 1 < n then Coord(e, (idx + 1) % n, n) == Coord(e, idx, n) + 1 else (idx + 1) % n == e
  {
    Advance(e, idx, n);
    NextSlot(idx, n);
  }

  lemma {:induction false} PassOne<V>(t: Slots<V>, hash: Key -> nat, k: Key, idx: nat)
    requires idx < |t| && Passed(t, hash, k, Dist(Home(hash, k, |t|), idx, |t|))
    requires t[idx].Some? && t[idx].value.key != k
    ensures Passed(t, hash, k, Dist(Home(hash, k, |t|), idx, |t|) + 1)
  {
    var h := Home(hash, k, |t|);
    assert forall j :: 0 <= j < |t| && Dist(h, j, |t|) == Dist(h, idx, |t|) ==> j == idx;
  }

  /** An empty slot stops every probe. */
  lemma {:induction false} CannotPassAll<V>(t: Slots<V>, hash: Key -> nat, k: Key, e: int)
    requires 0 <= e < |t| && t[e].None?
    ensures !Passed(t, hash, k, |t|)
  {
    assert Dist(Home(hash, k, |t|), e, |t|) < |t|;
  }

  /** A probe finds a key exactly when the map has it. */
  lemma {:induction false} ProbeDecides<V>(t: Slots<V>, hash: Key -> nat, m: map<Key, V>, k: Key, r: int)
    requires Chains(t, hash) && UniqueKeys(t) && Represents(t, m) && StopsAt(t, hash, k, r)
    ensures t[r].Some? <==> k in m
    ensures t[r].Some? ==> m[k] == t[r].value.val
  {
    if k in m {
      var i :| Occupied(t, i) && t[i].value.key == k;
      assert Chained(t, hash, i);
    }
  }

  lemma {:induction false} StoreChains<V>(t: Slots<V>, hash: Key -> nat, k: Key, v: V, r: int)
    requires Chains(t, hash) && StopsAt(t, hash, k, r)
    ensures Chains(t[r := Some(Pair(k, v))], hash)
  {
    var t' := t[r := Some(Pair(k, v))];
    forall i | Occupied(t', i) ensures Chained(t', hash, i) {
      if i != r { assert Occupied(t, i) && Chained(t, hash, i); }
    }
  }

  /** Storing where the probe stopped keeps the table well formed. */
  lemma {:induction false} StoreKeeps<V>(t: Slots<V>, hash: Key -> nat, m: map<Key, V>, k: Key, v: V, r: int)
    requires Chains(t, hash) && UniqueKeys(t) && Represents(t, m) && StopsAt(t, hash, k, r)
    ensures var t' := t[r := Some(Pair(k, v))];
            Chains(t', hash) && UniqueKeys(t') && Represents(t', m[k := v])
  {
    ProbeDecides(t, hash, m, k, r);
    StoreChains(t, hash, k, v, r);
    StoreRepresents(t, m, k, v, r);
  }

  lemma {:induction false} StoreRepresents<V>(t: Slots<V>, m: map<Key, V>, k: Key, v: V, r: int)
    requires UniqueKeys(t) && Represents(t, m) && 0 <= r < |t|
    requires if t[r].Some? then t[r].value.key == k else k !in m
    ensures var t' := t[r := Some(Pair(k, v))]; UniqueKeys(t') && Represents(t', m[k := v])
  {
    var t' := t[r := Some(Pair(k, v))];
    forall i | Occupied(t', i) && i != r ensures Occupied(t, i) && t'[i].value.key != k {
      assert Occupied(t, i) && t[i].value.key in m;
      assert t[r].Some? ==> Occupied(t, r);
    }
    forall x | x == k || x in m ensures exists i :: Occupied(t', i) && t'[i].value.key == x {
      if x == k {
        assert Occupied(t', r);
      } else {
        var i :| Occupied(t, i) && t[i].value.key == x;
        assert Occupied(t', i) && t'[i].value.key == x;
      }
    }
  }

  // ----- removal: re-inserting the rest of the cluster -----

  /** Position counted from the empty slot `e` that ends the cluster: `e` is at
      0, and no chain of occupied slots crosses from the last position to it. */
  function Coord(e: int, j: int, n: int): int { Dist(e, j, n) }

  /**
   The table while the cluster after a removed slot is being re-inserted.
   `e` is the empty slot that ends the cluster, `p` the coordinate of the
   removed slot and `c` the coordinate of the slot whose turn it is. Entries
   before `c` are chained; the ones from `c` on are untouched and their chains
   may have holes only between `p` and `c`.
   */
  ghost predicate Repairing<V>(t: Slots<V>, hash: Key -> nat, e: int, p: int, c: int) {
    && 0 <= e < |t| && t[e].None? && 0 < p < c <= |t|
    && (forall j :: 0 <= j < |t| && c <= Coord(e, j, |t|) ==> t[j].Some?)
    && (forall i :: Occupied(t, i) && Coord(e, i, |t|) < c ==> Chained(t, hash, i))
    && (forall i :: Occupied(t, i) && c <= Coord(e, i, |t|) ==> ChainedBut(t, hash, e, p, c, i))
  }

  ghost predicate ChainedBut<V>(t: Slots<V>, hash: Key -> nat, e: int, p: int, c: int, i: int)
    requires Occupied(t, i)
  {
    var h := Home(hash, t[i].value.key, |t|);
    forall j :: 0 <= j < |t| && Dist(h, j, |t|) < Dist(h, i, |t|) ==>
      t[j].Some? || p <= Coord(e, j, |t|) < c
  }

  /** A chain that avoids `e` does not wrap around when counted from `e`. */
  lemma {:induction false} Unwrapped(e: int, h: int, i: int, n: int)
    requires 0 <= e < n && 0 <= h < n && 0 <= i < n && e != i
    requires Dist(h, e, n) >= Dist(h, i, n)
    ensures Coord(e, h, n) <= Coord(e, i, n)
    ensures forall j :: 0 <= j < n ==>
              (Dist(h, j, n) < Dist(h, i, n) <==> Coord(e, h, n) <= Coord(e, j, n) < Coord(e, i, n))
  {
  }

  /** After the slot at coordinate `p` is emptied, the cluster up to `e` is pending. */
  lemma {:induction false} RepairStarts<V>(t: Slots<V>, hash: Key -> nat, e: int, at: int)
    requires Chains(t, hash) && Occupied(t, at) && 0 <= e < |t| && t[e].None?
    requires forall j :: 0 <= j < |t| && Coord(e, at, |t|) < Coord(e, j, |t|) ==> t[j].Some?
    ensures Repairing(t[at := None], hash, e, Coord(e, at, |t|), Coord(e, at, |t|) + 1)
  {
    var t', p := t[at := None], Coord(e, at, |t|);
    forall i | Occupied(t', i)
      ensures if Coord(e, i, |t|) < p + 1 then Chained(t', hash, i) else ChainedBut(t', hash, e, p, p + 1, i)
    {
      assert Occupied(t, i) && Chained(t, hash, i);
      Unwrapped(e, Home(hash, t[i].value.key, |t|), i, |t|);
    }
  }

  /** A re-inserted entry lands at or before its old slot, inside the part already repaired. */
  lemma {:induction false} RepairLands<V>(t: Slots<V>, hash: Key -> nat, e: int, p: int, i: int, r: int)
    requires 0 <= i < |t| && Repairing(t, hash, e, p, Coord(e, i, |t|)) && UniqueKeys(t)
    requires StopsAt(t[i := None], hash, t[i].value.key, r)
    ensures t[i := None][r].None?
    ensures r == i || p <= Coord(e, r, |t|) < Coord(e, i, |t|)
    ensures Dist(Home(hash, t[i].value.key, |t|), r, |t|) <= Dist(Home(hash, t[i].value.key, |t|), i, |t|)
  {
    var h := Home(hash, t[i].value.key, |t|);
    assert Occupied(t, i) && ChainedBut(t, hash, e, p, Coord(e, i, |t|), i);
    assert t[i := None][r].Some? ==> Occupied(t, r);
    assert Dist(h, r, |t|) <= Dist(h, i, |t|);
    Unwrapped(e, h, i, |t|);
  }

  /** An entry put where its probe stops is reachable from its home slot. */
  lemma {:induction false} Reinserted<V>(t: Slots<V>, hash: Key -> nat, i: int, r: int)
    requires Occupied(t, i) && StopsAt(t[i := None], hash, t[i].value.key, r)
    ensures Occupied(t[i := None][r := t[i]], r) && Chained(t[i := None][r := t[i]], hash, r)
  {
  }

  lemma {:induction false} CoordsDiffer(e: int, i: int, n: int)
    requires 0 <= e < n && 0 <= i < n
    ensures forall k :: 0 <= k < n && k != i ==> Coord(e, k, n) != Coord(e, i, n)
  {
  }

  /** After it has been re-inserted, the next entry of the cluster is up. */
  lemma {:induction false} RepairStep<V>(t: Slots<V>, hash: Key -> nat, e: int, p: int, i: int, r: int)
    requires 0 <= i < |t| && Repairing(t, hash, e, p, Coord(e, i, |t|)) && UniqueKeys(t)
    requires StopsAt(t[i := None], hash, t[i].value.key, r)
    ensures Repairing(t[i := None][r := t[i]], hash, e, p, Coord(e, i, |t|) + 1)
  {
    var c, t' := Coord(e, i, |t|), t[i := None][r := t[i]];
    RepairLands(t, hash, e, p, i, r);
    Reinserted(t, hash, i, r);
    hide Chained, ChainedBut, UniqueKeys, StopsAt;
    StepOccupies(t, hash, e, p, i, r);
    forall k | Occupied(t', k) && Coord(e, k, |t|) < c + 1 ensures Chained(t', hash, k) {
      if k != r {
        RepairedStays(t, hash, e, p, i, r, k);
      }
    }
    forall k | Occupied(t', k) && c + 1 <= Coord(e, k, |t|) ensures ChainedBut(t', hash, e, p, c + 1, k) {
      PendingStays(t, hash, e, p, i, r, k);
    }
  }

  /** Which slots are occupied after the step. */
  lemma {:induction false} StepOccupies<V>(t: Slots<V>, hash: Key -> nat, e: int, p: int, i: int, r: int)
    requires 0 <= i < |t| && Repairing(t, hash, e, p, Coord(e, i, |t|)) && Occupied(t, i) && 0 <= r < |t|
    requires r == i || p <= Coord(e, r, |t|) < Coord(e, i, |t|)
    ensures var c, t' := Coord(e, i, |t|), t[i := None][r := t[i]];
            && 0 <= e < |t| && t'[e].None? && 0 < p < c + 1 <= |t|
            && (forall j :: 0 <= j < |t| && c + 1 <= Coord(e, j, |t|) ==> t'[j].Some?)
            && (forall k :: Occupied(t', k) && k != r ==> Occupied(t, k) && Coord(e, k, |t|) != c)
  {
    hide Chained, ChainedBut;
    CoordsDiffer(e, i, |t|);
  }

  lemma {:induction false} RepairedStays<V>(t: Slots<V>, hash: Key -> nat, e: int, p: int, i: int, r: int, k: int)
    requires 0 <= i < |t| && 0 <= r < |t| && Repairing(t, hash, e, p, Coord(e, i, |t|))
    requires Occupied(t, k) && Coord(e, k, |t|) < Coord(e, i, |t|) && k != r
    ensures Chained(t[i := None][r := t[i]], hash, k)
  {
    assert Chained(t, hash, k);
    var h := Home(hash, t[k].value.key, |t|);
    assert Dist(h, k, |t|) <= Dist(h, e, |t|);
    Unwrapped(e, h, k, |t|);
  }

  lemma {:induction false} PendingStays<V>(t: Slots<V>, hash: Key -> nat, e: int, p: int, i: int, r: int, k: int)
    requires 0 <= i < |t| && 0 <= r < |t| && Repairing(t, hash, e, p, Coord(e, i, |t|))
    requires Occupied(t, k) && Coord(e, i, |t|) + 1 <= Coord(e, k, |t|) && k != r
    ensures ChainedBut(t[i := None][r := t[i]], hash, e, p, Coord(e, i, |t|) + 1, k)
  {
    assert ChainedBut(t, hash, e, p, Coord(e, i, |t|), k);
  }

  /** The pending entries are occupied slots, so the first empty slot met is `e`. */
  lemma {:induction false} RepairBounds<V>(t: Slots<V>, hash: Key -> nat, e: int, p: int, c: int)
    requires Repairing(t, hash, e, p, c)
    ensures 0 <= e < |t| && 0 < p < c <= |t| && t[e].None?
    ensures forall j :: 0 <= j < |t| && Coord(e, j, |t|) == c ==> t[j].Some?
  {
  }

  lemma {:induction false} RepairDone<V>(t: Slots<V>, hash: Key -> nat, e: int, p: int)
    requires Repairing(t, hash, e, p, |t|)
    ensures Chains(t, hash)
  {
  }

  lemma {:induction false} RemoveRepresents<V>(t: Slots<V>, m: map<Key, V>, at: int)
    requires UniqueKeys(t) && Represents(t, m) && Occupied(t, at)
    ensures UniqueKeys(t[at := None]) && Represents(t[at := None], m - {t[at].value.key})
  {
    var t' := t[at := None];
    assert forall i :: Occupied(t', i) <==> Occupied(t, i) && i != at;
    forall x | x in m - {t[at].value.key} ensures exists i :: Occupied(t', i) && t'[i].value.key == x {
      var i :| Occupied(t, i) && t[i].value.key == x;
      assert Occupied(t', i);
    }
  }

  lemma {:induction false} MoveRepresents<V>(t: Slots<V>, m: map<Key, V>, i: int, r: int)
    requires UniqueKeys(t) && Represents(t, m) && Occupied(t, i) && 0 <= r < |t| && t[i := None][r].None?
    ensures var t' := t[i := None][r := t[i]]; UniqueKeys(t') && Represents(t', m)
  {
    var t' := t[i := None][r := t[i]];
    assert forall j :: Occupied(t', j) && j != r ==> Occupied(t, j) && j != i && t'[j] == t[j];
    MovedKeepsKeys(t, t', i, r);
    forall x | x in m ensures exists j :: Occupied(t', j) && t'[j].value.key == x {
      var j :| Occupied(t, j) && t[j].value.key == x;
      assert Occupied(t', if j == i then r else j);
    }
  }

  lemma {:induction false} MovedKeepsKeys<V>(t: Slots<V>, t': Slots<V>, i: int, r: int)
    requires UniqueKeys(t) && Occupied(t, i) && 0 <= r < |t| && t[i := None][r].None? && t' == t[i := None][r := t[i]]
    ensures UniqueKeys(t')
  {
    forall j, k | Occupied(t', j) && Occupied(t', k) && t'[j].value.key == t'[k].value.key ensures j == k {
      var a, b := if j == r then i else j, if k == r then i else k;
      assert Occupied(t, a) && Occupied(t, b) && t[a] == t'[j] && t[b] == t'[k];
    }
  }
}
