/**
 The event queue: a linked first-in first-out list whose nodes go through a
 free list and come back. Every operation holds the lock from start to end.
 */
module EvQueue {
  import opened Prelude

  class Node<T> {
    var data: T
    var next: Node?<T>

    constructor (data: T)
      ensures this.data == data && next == null
    {
      this.data, next := data, null;
    }
  }

  /** `nodes` hang together in this order, from `first` to a null link. */
  ghost predicate Chain<T>(first: Node?<T>, nodes: seq<Node<T>>)
    reads nodes
  {
    if nodes == [] then first == null
    else
      && first == nodes[0]
      && (forall i :: 0 <= i < |nodes| - 1 ==> nodes[i].next == nodes[i + 1])
      && nodes[|nodes| - 1].next == null
  }

  class Queue<T> {
    var head: Node?<T>
    var tail: Node?<T>
    var freeList: Node?<T>
    /** The nodes that carry messages, and those that wait to be used again. */
    ghost var used: seq<Node<T>>
    ghost var spare: seq<Node<T>>
    /** Everything pushed and popped so far. */
    ghost var pushed: seq<T>
    ghost var popped: seq<T>

    /** The two chains hold all nodes, share none, and run into themselves nowhere. */
    ghost predicate Valid()
      reads this, used, spare
    {
      && Chain(head, used) && Chain(freeList, spare)
      && (if used == [] then tail == null else tail == used[|used| - 1])
      && (forall i, j :: 0 <= i < j < |used| ==> used[i] != used[j])
      && (forall i, j :: 0 <= i < j < |spare| ==> spare[i] != spare[j])
      && (forall n :: n in used ==> n !in spare)
      && pushed == popped + Pending()
    }

    ghost function Pending(): seq<T>
      reads this, used
    {
      seq(|used|, i requires 0 <= i < |used| reads this, used => used[i].data)
    }

    /** `evq_init`: as many spare nodes as there is memory for, up to a limit. */
    constructor (data: T, memory: nat)
      ensures Valid() && pushed == [] && popped == [] && fresh(spare) && used == []
      ensures |spare| == if memory < 16 then memory else 16
    {
      head, tail, freeList := null, null, null;
      used, spare, pushed, popped := [], [], [], [];
      new;
      assert Valid();
      hide Valid;
      var i := 0;
      while i < 16
        invariant Valid() && pushed == [] && popped == [] && used == [] && fresh(spare)
        invariant |spare| == i <= 16 && i <= memory
      {
        if i == memory {
          break;
        }
        var node := new Node(data);
        ReturnNode(node);
        i := i + 1;
      }
    }

    /** `return_node` */
    method ReturnNode(node: Node<T>)
      requires Valid() && node !in used && node !in spare
      modifies this`freeList, this`spare, node
      ensures Valid() && spare == [node] + old(spare) && freeList == node && node.data == old(node.data)
    {
      node.next := freeList;
      freeList := node;
      spare := [node] + spare;
      assert forall i :: 0 < i < |spare| ==> spare[i] == old(spare)[i - 1] && spare[i] != node;
    }

    /** `alloc_node`: a spare node if there is one, else a new one, else none. */
    method AllocNode(data: T, memOk: bool) returns (node: Node?<T>)
      requires Valid()
      modifies this`freeList, this`spare
      ensures Valid() && (node != null ==> node !in used && node !in spare)
      ensures if old(spare) != [] then node == old(spare)[0] && spare == old(spare)[1..]
              else spare == [] && (node != null <==> memOk) && (node != null ==> fresh(node))
    {
      if freeList != null {
        node := freeList;
        freeList := node.next;
        spare := spare[1..];
        return;
      }
      if !memOk {
        return null;
      }
      node := new Node(data);
    }

    /** `evq_push`: appended at the tail, or nothing changed. */
    method Push(data: T, memOk: bool) returns (ok: bool)
      requires Valid()
      modifies this, used, spare
      ensures Valid() && popped == old(popped) && pushed == old(pushed) + if ok then [data] else []
      ensures fresh(set n | n in used + spare && n !in old(used) + old(spare))
      ensures ok <==> old(spare) != [] || memOk
    {
      var node := AllocNode(data, memOk);
      if node == null {
        assert pushed + [] == pushed;
        return false;
      }
      Append(node, data);
      ok := true;
    }

    method Append(node: Node<T>, data: T)
      requires Valid() && node !in used && node !in spare
      modifies this`head, this`tail, this`used, this`pushed, used, node
      ensures Valid() && used == old(used) + [node] && pushed == old(pushed) + [data]
    {
      ghost var before := Pending();
      Link(node, data, before);
      hide Chain;
      used := used + [node];
      assert Pending() == before + [data];
      pushed := pushed + [data];
    }

    /** The pointers of an append: the node is behind the last one, or alone. */
    method Link(node: Node<T>, data: T, ghost before: seq<T>)
      requires Valid() && node !in used && node !in spare && before == Pending()
      modifies this`head, this`tail, used, node
      ensures Chain(head, used + [node]) && Chain(freeList, spare) && tail == node && |before| == |used|
      ensures forall i :: 0 <= i <= |used| ==> (used + [node])[i].data == (before + [data])[i]
    {
      assert forall i :: 0 <= i < |used| ==> used[i] in used;
      node.data := data;
      node.next := null;
      if tail != null {
        tail.next := node;
      } else {
        head := node;
      }
      tail := node;
      assert Chain(freeList, spare);
      Longer(used, node, before, data);
    }

    /** The longer chain carries one more message. */
    lemma {:induction false} Longer(was: seq<Node<T>>, node: Node<T>, before: seq<T>, data: T)
      requires |before| == |was| && node.next == null && node.data == data && head == (was + [node])[0]
      requires forall i :: 0 <= i < |was| - 1 ==> was[i].next == was[i + 1]
      requires was != [] ==> was[|was| - 1].next == node
      requires forall i :: 0 <= i < |was| ==> was[i].data == before[i]
      ensures Chain(head, was + [node])
      ensures forall i :: 0 <= i <= |was| ==> (was + [node])[i].data == (before + [data])[i]
    {
    }

    /** `evq_wait`: the oldest message that has not been handed out; with none
        the caller goes to sleep, which is `None` here. */
    method Wait() returns (r: Option<T>)
      requires Valid()
      modifies this, used, spare
      ensures Valid() && pushed == old(pushed)
      ensures r.None? <==> old(used) == []
      ensures r.Some? ==>
              popped == old(popped) + [r.value] && |old(popped)| < |pushed| && r.value == pushed[|old(popped)|]
      ensures r.None? ==> popped == old(popped)
      ensures multiset(used) + multiset(spare) == old(multiset(used) + multiset(spare))
    {
      if head == null {
        return None;
      }
      var node, data := Unlink();
      assert old(used) == [node] + used;
      ReturnNode(node);
      r := Some(data);
    }

    /** The first node leaves the chain. */
    method Unlink() returns (node: Node<T>, data: T)
      requires Valid() && head != null
      modifies this`head, this`tail, this`used, this`popped
      ensures Valid() && used == old(used)[1..] && node == old(used)[0] && node !in used && node !in spare
      ensures data == node.data && popped == old(popped) + [data] && |old(popped)| < |pushed| &&
              data == pushed[|old(popped)|]
    {
      ghost var before := Pending();
      node := head;
      head := node.next;
      if head == null {
        tail := null;
      }
      data := node.data;
      assert used[0] in used;
      used := used[1..];
      popped := popped + [data];
      assert forall i :: 0 <= i < |used| ==> used[i] == old(used)[i + 1];
      assert before == [data] + before[1..] && Pending() == before[1..];
    }

    /** What has been popped is, in order, a prefix of what has been pushed. */
    lemma {:induction false} PoppedIsPrefix()
      requires Valid()
      ensures popped <= pushed && |pushed| - |popped| == |used|
    {
    }
  }
}
