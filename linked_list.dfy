/** The heap structure of `streamlit_app.py`: a singly linked chain of
    `Node`s, each a pitch with its repeat count, owned by a `LinkedList`.
    The ghost field `Spine` lists the nodes in chain order, `Contents` is
    the abstract value (a `PitchCounts` sequence) and `Repr` the footprint. */
module MeasureLists {
  import opened PitchCounts
  import Rendering

  class Node {
    var data: int
    var count: int
    var next: Node?

    constructor (data: int)
      ensures this.data == data && count == 1 && next == null
    {
      this.data := data;
      count := 1;
      next := null;
    }
  }

  class LinkedList {
    var head: Node?

    ghost var Spine: seq<Node>
    ghost var Contents: seq<Entry>
    ghost var Repr: set<object>

    /** `head` starts a chain that visits the nodes of `Spine` in order, each
        once, ending in null; `Contents` reads off each node's pitch and count. */
    ghost predicate Valid()
      reads this, Repr
      ensures Valid() ==> this in Repr
    {
      && this in Repr
      && (forall k :: 0 <= k < |Spine| ==> Spine[k] in Repr)
      && (forall a, b :: 0 <= a < b < |Spine| ==> Spine[a] != Spine[b])
      && |Contents| == |Spine|
      && head == (if Spine == [] then null else Spine[0])
      && (forall k {:trigger Spine[k].next} :: 0 <= k < |Spine| ==> Spine[k].next == NextIn(Spine, k))
      && (forall k :: 0 <= k < |Spine| ==> Contents[k] == Entry(Spine[k].data, Spine[k].count))
    }

    /** The node the chain reaches after `Spine[k]`. */
    static ghost function NextIn(spine: seq<Node>, k: nat): Node? {
      if k + 1 < |spine| then spine[k + 1] else null
    }

    constructor ()
      ensures Valid() && fresh(Repr)
      ensures Contents == []
    {
      head := null;
      Spine := [];
      Contents := [];
      Repr := {this};
    }

    /** `append(data)`: walk the chain; on the first node carrying `data`
        increment its count and stop; on reaching the tail without a match
        link a fresh node with count one after it. */
    method Append(data: int)
      requires Valid()
      modifies Repr
      ensures Valid() && fresh(Repr - old(Repr))
      ensures Contents == PitchCounts.Append(old(Contents), data)
    {
      var newNode := new Node(data);  // allocated up front, as in the source
      if head == null {
        head := newNode;
        Spine, Contents, Repr := [newNode], [Entry(data, 1)], Repr + {newNode};
      } else {
        var current: Node := head;
        var found := false;
        ghost var i := 0;
        while true
          invariant 0 <= i < |Spine| && current == Spine[i]
          invariant forall k :: 0 <= k < i ==> Contents[k].pitch != data
          invariant Valid() && Spine == old(Spine) && Contents == old(Contents) && Repr == old(Repr)
          invariant !found
          invariant newNode.data == data && newNode.count == 1 && newNode.next == null
          decreases |Spine| - i
        {
          if current.data == data {
            assert IndexOf(Contents, data) == i;
            IncrementAt(current, i);
            found := true;
            break;
          }
          assert Spine[i].next == NextIn(Spine, i);
          if current.next == null {
            break;
          }
          current := current.next;
          i := i + 1;
        }
        if !found {
          assert !Contains(Contents, data);
          LinkAtTail(current, newNode);
        }
      }
    }

    /** Increment the count of the node at position `i` of the chain, in place. */
    method IncrementAt(node: Node, ghost i: nat)
      requires Valid() && i < |Spine| && node == Spine[i]
      modifies this, node
      ensures Valid() && Spine == old(Spine) && Repr == old(Repr)
      ensures Contents == old(Contents)[i := Entry(old(Contents)[i].pitch, old(Contents)[i].count + 1)]
    {
      label Before:
      node.count := node.count + 1;
      Contents := Contents[i := Entry(node.data, node.count)];
      forall k | 0 <= k < |Spine| && k != i
        ensures Spine[k].next == NextIn(Spine, k) && Contents[k] == Entry(Spine[k].data, Spine[k].count)
      {
        assert Spine[k] != node;
        assert old@Before(Spine[k].next) == NextIn(Spine, k);
        assert old@Before(Entry(Spine[k].data, Spine[k].count)) == Contents[k];
      }
    }

    /** Link the new node after the last node of the chain. */
    method LinkAtTail(tail: Node, newNode: Node)
      requires Valid() && Spine != [] && tail == Spine[|Spine| - 1]
      requires newNode !in Repr && newNode.next == null
      modifies this, tail
      ensures Valid() && Spine == old(Spine) + [newNode] && Repr == old(Repr) + {newNode}
      ensures Contents == old(Contents) + [Entry(newNode.data, newNode.count)]
    {
      ghost var spine := Spine;
      ghost var n := |spine| - 1;
      label Before:
      tail.next := newNode;
      Spine, Contents, Repr := Spine + [newNode], Contents + [Entry(newNode.data, newNode.count)], Repr + {newNode};
      forall k | 0 <= k < |Spine| ensures Spine[k].next == NextIn(Spine, k) {
        if k < n {
          assert spine[k] != tail;
          assert old@Before(spine[k].next) == spine[k + 1];
        }
      }
    }

    /** `__str__`: the pieces of the nodes in chain order, joined by `" -> "`. */
    method ToString() returns (s: string)
      requires Valid()
      ensures s == Rendering.Render(Contents)
    {
      var nodes: seq<string> := [];
      var current := head;
      ghost var i := 0;
      while current != null
        invariant 0 <= i <= |Spine|
        invariant current == if i < |Spine| then Spine[i] else null
        invariant nodes == Rendering.Pieces(Contents[..i])
        decreases |Spine| - i
      {
        assert current.next == NextIn(Spine, i);
        Rendering.PiecesTake(Contents, i);
        nodes := nodes + [Rendering.Piece(current.data, current.count)];
        current := current.next;
        i := i + 1;
      }
      assert Contents[..i] == Contents;
      s := Rendering.Join(nodes, Rendering.Separator);
    }

    /** `print_list`: the line it writes to the console. */
    method PrintList() returns (line: string)
      requires Valid()
      ensures line == "Linked List: " + Rendering.Render(Contents)
    {
      var s := ToString();
      line := "Linked List: " + s;
    }
  }
}
