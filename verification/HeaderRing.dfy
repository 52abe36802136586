/** The bounded in-memory header list: a ring of slots in which every slot points back to
    the slot of the node before it. It is proved to be the bounded sequence that the header
    rules use, also when it is walked backwards through the slot pointers. */
module HeaderRing {
  import opened Chain
  import opened HeaderRules

  /** A slot of the ring; prev is the slot of the previous node, None for a nil pointer. */
  datatype Slot = Slot(node: Node, prev: Option<int>)

  /** The slot of the i-th oldest node in a ring of max slots. */
  function At(head: int, max: nat, i: int): int {
    if head + i < max then head + i else head + i - max
  }

  /** The pointers fit together: nothing held, or len slots from head to tail. A ring that
      is not full starts at slot 0. */
  ghost predicate Shape(max: nat, head: int, tail: int, len: nat) {
    && 0 < max && len <= max
    && (len == 0 ==> head == tail == -1)
    && (0 < len ==> 0 <= head < max && tail == At(head, max, len - 1))
    && (0 < len < max ==> head == 0)
  }

  /** The slots hold nodes, oldest first. */
  ghost predicate Holds(slots: seq<Slot>, head: int, nodes: seq<Node>) {
    && |nodes| <= |slots| && (nodes != [] ==> 0 <= head < |slots|)
    && forall i :: 0 <= i < |nodes| ==> slots[At(head, |slots|, i)].node == nodes[i]
  }

  /** Every slot points back to the one before it, the oldest to none. */
  ghost predicate BackLinked(slots: seq<Slot>, head: int, len: nat) {
    && len <= |slots| && (0 < len ==> 0 <= head < |slots|)
    && forall i :: 0 <= i < len ==> BackLinkedAt(slots, head, i)
  }

  predicate BackLinkedAt(slots: seq<Slot>, head: int, i: nat)
    requires 0 <= head < |slots| && i < |slots|
  {
    slots[At(head, |slots|, i)].prev == if i == 0 then None else Some(At(head, |slots|, i - 1))
  }

  lemma Wrap(x: int, max: nat)
    requires 0 <= x <= max && 0 < max
    ensures x % max == if x == max then 0 else x
  {
  }

  /** Filling the next free slot of a ring that is not full. */
  lemma PushFree(slots: seq<Slot>, slots': seq<Slot>, nodes: seq<Node>, n: Node)
    requires |nodes| < |slots| && Holds(slots, 0, nodes)
    requires slots' == slots[|nodes| := Slot(n, if nodes == [] then None else Some(|nodes| - 1))]
    ensures Holds(slots', 0, nodes + [n])
    ensures BackLinked(slots, 0, |nodes|) ==> BackLinked(slots', 0, |nodes| + 1)
  {
    assert forall i :: 0 <= i < |slots| ==> At(0, |slots|, i) == i;
    if BackLinked(slots, 0, |nodes|) {
      forall i | 0 <= i < |nodes| + 1 ensures BackLinkedAt(slots', 0, i) {
        assert i < |nodes| ==> BackLinkedAt(slots, 0, i);
      }
    }
  }

  /** Replacing the oldest node of a full ring: its slot becomes the newest, the next slot
      the oldest. */
  lemma PushFull(slots: seq<Slot>, slots': seq<Slot>, head: int, nodes: seq<Node>, n: Node)
    requires |nodes| == |slots| && Holds(slots, head, nodes) && 0 <= head < |slots|
    requires var max := |slots|;
      var next := At(head, max, 1);
      slots' == slots[next := slots[next].(prev := None)][head := Slot(n, Some(At(head, max, max - 1)))]
    ensures Holds(slots', At(head, |slots|, 1), nodes[1..] + [n])
    ensures 2 <= |slots| && BackLinked(slots, head, |slots|) ==> BackLinked(slots', At(head, |slots|, 1), |slots|)
  {
    var max := |slots|;
    var next := At(head, max, 1);
    forall i | 0 <= i < max ensures slots'[At(next, max, i)].node == (nodes[1..] + [n])[i] {
      if i == max - 1 {
        assert At(next, max, i) == head;
      } else {
        assert At(next, max, i) == At(head, max, i + 1) != head;
      }
    }
    if 2 <= max && BackLinked(slots, head, max) {
      forall i | 0 <= i < max ensures BackLinkedAt(slots', next, i) {
        assert 0 < i ==> At(next, max, i - 1) == At(head, max, i);
        if i == max - 1 {
          assert At(next, max, i) == head;
        } else {
          assert BackLinkedAt(slots, head, i + 1);
          assert At(next, max, i) == At(head, max, i + 1) != head;
        }
      }
    }
  }

  /** The ring holds nodes and can be walked backwards through its slot pointers. In a ring of
      one slot the node may point to its own slot. */
  ghost predicate RingOk(slots: seq<Slot>, head: int, tail: int, nodes: seq<Node>) {
    && Shape(|slots|, head, tail, |nodes|) && Holds(slots, head, nodes)
    && (2 <= |slots| ==> BackLinked(slots, head, |nodes|))
    && (|slots| == 1 == |nodes| ==> slots[0].prev in {None, Some(0)})
  }

  function NextPtr(ptr: int, max: nat): int {
    if ptr + 1 == max then 0 else ptr + 1
  }

  /** Appending a node moves the tail, and the head with it if that was reached. */
  lemma {:induction false} PushRing(
      slots: seq<Slot>, slots': seq<Slot>, head: int, tail: int, head': int, tail': int, nodes: seq<Node>, n: Node)
    requires RingOk(slots, head, tail, nodes) && tail' == NextPtr(tail, |slots|)
    requires head' == if tail' <= head || head == -1 then NextPtr(head, |slots|) else head
    requires var cut := if tail' <= head || head == -1 then slots[head' := slots[head'].(prev := None)] else slots;
      slots' == cut[tail' := Slot(n, if tail == -1 then None else Some(tail))]
    ensures RingOk(slots', head', tail', Bounded(nodes + [n], |slots|))
  {
    if |nodes| < |slots| {
      assert head' == 0 && tail' == |nodes|;
      assert slots' == slots[|nodes| := Slot(n, if nodes == [] then None else Some(|nodes| - 1))];
      RingFree(slots, slots', nodes, n);
    } else {
      assert head' == At(head, |slots|, 1) && tail' == head && tail == At(head, |slots|, |slots| - 1);
      RingFull(slots, slots', head, nodes, n);
    }
  }

  lemma {:induction false} RingFree(slots: seq<Slot>, slots': seq<Slot>, nodes: seq<Node>, n: Node)
    requires |nodes| < |slots| && Holds(slots, 0, nodes) && (2 <= |slots| ==> BackLinked(slots, 0, |nodes|))
    requires slots' == slots[|nodes| := Slot(n, if nodes == [] then None else Some(|nodes| - 1))]
    ensures RingOk(slots', 0, |nodes|, Bounded(nodes + [n], |slots|))
  {
    PushFree(slots, slots', nodes, n);
  }

  lemma {:induction false} RingFull(slots: seq<Slot>, slots': seq<Slot>, head: int, nodes: seq<Node>, n: Node)
    requires |nodes| == |slots| && Holds(slots, head, nodes) && 0 <= head < |slots|
    requires 2 <= |slots| ==> BackLinked(slots, head, |slots|)
    requires var next := At(head, |slots|, 1);
      slots' == slots[next := slots[next].(prev := None)][head := Slot(n, Some(At(head, |slots|, |slots| - 1)))]
    ensures RingOk(slots', At(head, |slots|, 1), head, Bounded(nodes + [n], |slots|))
  {
    PushFull(slots, slots', head, nodes, n);
    assert Bounded(nodes + [n], |slots|) == nodes[1..] + [n];
  }

  class BoundedMemoryChain {
    const maxSize: nat
    const chain: array<Slot>
    var headPtr: int
    var tailPtr: int
    var len: nat
    /** The nodes held, oldest first. */
    ghost var contents: seq<Node>

    ghost predicate Valid()
      reads this, chain
    {
      maxSize == chain.Length && len == |contents| && RingOk(chain[..], headPtr, tailPtr, contents)
    }

    constructor (maxNodes: nat, filler: Node)
      requires 0 < maxNodes
      ensures Valid() && fresh(chain) && maxSize == maxNodes && contents == []
    {
      maxSize := maxNodes;
      chain := new Slot[maxNodes](_ => Slot(filler, None));
      headPtr, tailPtr, len, contents := -1, -1, 0, [];
    }

    /** Appends a node, dropping the oldest when the ring is full. A ring of one slot ends up
        with a node that points back to itself when a node was dropped. */
    method PushBack(n: Node)
      requires Valid()
      modifies this`headPtr, this`tailPtr, this`len, this`contents, chain
      ensures Valid() && contents == Bounded(old(contents) + [n], maxSize)
      ensures chain[tailPtr].prev == if old(len) == 0 then None else Some(old(tailPtr))
    {
      ghost var slots, head, tail := chain[..], headPtr, tailPtr;
      var prevElem := if tailPtr != -1 then Some(tailPtr) else None;
      Wrap(tailPtr + 1, maxSize);
      tailPtr := (tailPtr + 1) % maxSize;
      if tailPtr <= headPtr || headPtr == -1 {
        Wrap(headPtr + 1, maxSize);
        headPtr := (headPtr + 1) % maxSize;
        chain[headPtr] := chain[headPtr].(prev := None);
      }
      chain[tailPtr] := Slot(n, None);
      chain[tailPtr] := chain[tailPtr].(prev := prevElem);
      PushRing(slots, chain[..], head, tail, headPtr, tailPtr, contents, n);
      len := if len + 1 > maxSize then maxSize else len + 1;
      contents := Bounded(contents + [n], maxSize);
    }

    method ResetHeaderState(n: Node)
      requires Valid()
      modifies this`headPtr, this`tailPtr, this`len, this`contents, chain
      ensures Valid() && contents == [n]
    {
      headPtr, tailPtr, len, contents := -1, -1, 0, [];
      PushBack(n);
    }

    /** Back, followed by n calls of Prev: the n-th newest node. A node that points to itself, in
        a ring of one slot, is its own predecessor. */
    method WalkBack(n: nat) returns (r: Option<Node>)
      requires Valid()
      ensures r == if n < |contents| then Some(contents[|contents| - 1 - n])
                   else if maxSize == 1 == len && chain[0].prev.Some? then Some(contents[0]) else None
    {
      if tailPtr == -1 && headPtr == -1 {
        return None;
      }
      ghost var loop := maxSize == 1 && chain[0].prev.Some?;
      var slot, i := Some(tailPtr), 0;
      while i < n && slot.Some?
        invariant 0 <= i <= n
        invariant if loop then slot == Some(0) else i <= len
        invariant !loop ==> slot == if i < len then Some(At(headPtr, maxSize, len - 1 - i)) else None
      {
        assert 2 <= maxSize ==> BackLinkedAt(chain[..], headPtr, len - 1 - i);
        slot := chain[slot.value].prev;
        i := i + 1;
      }
      if slot.None? {
        return None;
      }
      assert chain[..][slot.value] == chain[slot.value];
      return Some(chain[slot.value].node);
    }
  }
}
