/**
 The nodes of labs/src/porcupine/checker.go and the operations that rewrite their links.
 */
module LinkedEntries {
  import opened Entries
  import DL = DancingLinks

  datatype Value<I, O> = Nothing | Input(input: I) | Output(output: O)

  /** A call node knows its return node; a return node and the head have no mate. */
  class Node<I, O> {
    const value: Value<I, O>
    const mate: Node?<I, O>
    const id: int
    var next: Node?<I, O>
    var prev: Node?<I, O>
    /** The node's place in the whole list. */
    ghost const pos: nat

    constructor (value: Value<I, O>, mate: Node?<I, O>, id: int, ghost pos: nat)
      ensures this.value == value && this.mate == mate && this.id == id && this.pos == pos
      ensures next == null && prev == null
    {
      this.value, this.mate, this.id, this.pos := value, mate, id, pos;
      next, prev := null, null;
    }
  }

  ghost predicate Points<I, O>(nodes: seq<Node<I, O>>, r: Node?<I, O>, q: int) {
    if q == DL.NIL then r == null else 0 <= q < |nodes| && r == nodes[q]
  }

  ghost predicate Numbered<I, O>(nodes: seq<Node<I, O>>) {
    forall i :: 0 <= i < |nodes| ==> nodes[i].pos == i
  }

  /** The links in the heap are those of the value. */
  ghost predicate Mirrors<I, O>(nodes: seq<Node<I, O>>, h: DL.Heap)
    reads nodes
  {
    && |h.next| == |h.prev| == |nodes|
    && forall i :: 0 <= i < |nodes| ==> Points(nodes, nodes[i].next, h.next[i]) && Points(nodes, nodes[i].prev, h.prev[i])
  }

  /** `insertBefore`. */
  method InsertBefore<I, O>(n: Node<I, O>, mark: Node?<I, O>)
    requires mark != null ==> n != mark && n != mark.prev && mark.prev != mark
    modifies n, if mark == null then {} else {mark}, if mark == null || mark.prev == null then {} else {mark.prev}
    ensures mark == null ==> n.next == old(n.next) && n.prev == old(n.prev)
    ensures mark != null ==> n.next == mark && mark.prev == n && mark.next == old(mark.next)
    ensures mark != null && old(mark.prev) == null ==> n.prev == old(n.prev)
    ensures mark != null && old(mark.prev) != null ==>
      n.prev == old(mark.prev) && old(mark.prev).next == n && old(mark.prev).prev == old(mark.prev.prev)
  {
    if mark != null {
      var beforeMark := mark.prev;
      mark.prev := n;
      n.next := mark;
      if beforeMark != null {
        n.prev := beforeMark;
        beforeMark.next := n;
      }
    }
  }

  // ---------------------------------------------------------------- lift and unlift

  method Unlink<I, O>(n: Node<I, O>, ghost nodes: seq<Node<I, O>>, ghost h: DL.Heap)
    requires Numbered(nodes) && Mirrors(nodes, h) && n.pos < |nodes| && nodes[n.pos] == n && DL.Removable(h, n.pos)
    modifies nodes
    ensures Mirrors(nodes, DL.Remove(h, n.pos))
  {
    n.prev.next := n.next;
    if n.next != null {
      n.next.prev := n.prev;
    }
  }

  method Relink<I, O>(n: Node<I, O>, ghost nodes: seq<Node<I, O>>, ghost h: DL.Heap)
    requires Numbered(nodes) && Mirrors(nodes, h) && n.pos < |nodes| && nodes[n.pos] == n && DL.Removable(h, n.pos)
    modifies nodes
    ensures Mirrors(nodes, DL.Restore(h, n.pos))
  {
    n.prev.next := n;
    if n.next != null {
      n.next.prev := n;
    }
  }

  /** `lift`: the call first, then its return. */
  method Lift<I, O>(entry: Node<I, O>, ghost nodes: seq<Node<I, O>>, ghost h: DL.Heap)
    requires Numbered(nodes) && Mirrors(nodes, h)
    requires entry.pos < |nodes| && nodes[entry.pos] == entry
    requires entry.mate != null && entry.mate.pos < |nodes| && nodes[entry.mate.pos] == entry.mate
    requires DL.Liftable(h, entry.pos, entry.mate.pos)
    modifies nodes
    ensures Mirrors(nodes, DL.Lift(h, entry.pos, entry.mate.pos))
  {
    Unlink(entry, nodes, h);
    Unlink(entry.mate, nodes, DL.Remove(h, entry.pos));
  }

  /** `unlift`: the return first, then the call. */
  method Unlift<I, O>(entry: Node<I, O>, ghost nodes: seq<Node<I, O>>, ghost h: DL.Heap)
    requires Numbered(nodes) && Mirrors(nodes, h)
    requires entry.pos < |nodes| && nodes[entry.pos] == entry
    requires entry.mate != null && entry.mate.pos < |nodes| && nodes[entry.mate.pos] == entry.mate
    requires DL.Unliftable(h, entry.pos, entry.mate.pos)
    modifies nodes
    ensures Mirrors(nodes, DL.Unlift(h, entry.pos, entry.mate.pos))
  {
    Relink(entry.mate, nodes, h);
    Relink(entry, nodes, DL.Restore(h, entry.mate.pos));
  }

  // ---------------------------------------------------------------- building the list

  /** The node is the one for entry i, whose mate is its id's return. */
  ghost predicate NodeFor<I, O>(es: seq<Entry<I, O>>, node: Node<I, O>, i: nat)
    requires i < |es|
  {
    && node.pos == i + 1 && node.id == es[i].id
    && match es[i] {
         case Call(input, id, _) =>
           node.value == Input(input) && node.mate != null && node.mate.pos > 0 && MateFor(es, node.mate, id, node.mate.pos - 1)
         case Return(output, _, _) => node.value == Output(output) && node.mate == null
       }
  }

  ghost predicate MateFor<I, O>(es: seq<Entry<I, O>>, mate: Node<I, O>, id: nat, j: nat) {
    IsReturn(es, id, j) && mate.value == Output(es[j].output)
  }

  /** The node's mate, if it has one, stands in its own place of the list. */
  ghost predicate MatePlaced<I, O>(nodes: seq<Node<I, O>>, node: Node<I, O>, base: nat) {
    node.mate != null ==> base <= node.mate.pos < base + |nodes| && nodes[node.mate.pos - base] == node.mate
  }

  /** The nodes of the whole list, the head first. */
  ghost predicate Built<I, O>(es: seq<Entry<I, O>>, nodes: seq<Node<I, O>>) {
    && |nodes| == |es| + 1 && nodes[0].pos == 0 && nodes[0].mate == null
    && (forall p :: 0 < p < |nodes| ==> NodeFor(es, nodes[p], p - 1) && MatePlaced(nodes, nodes[p], 0))
  }

  ghost predicate Chained<I, O>(tail: seq<Node<I, O>>, k: nat)
    requires k < |tail|
    reads tail
  {
    && tail[k].next == (if k + 1 < |tail| then tail[k + 1] else null)
    && tail[k].prev == (if k > 0 then tail[k - 1] else null)
  }

  /** A stretch of the list under construction: the nodes of the entries from i on. */
  ghost predicate Nodes<I, O>(es: seq<Entry<I, O>>, i: nat, tail: seq<Node<I, O>>) {
    && i <= |es| && |tail| == |es| - i
    && forall k :: 0 <= k < |tail| ==> NodeFor(es, tail[k], i + k) && MatePlaced(tail, tail[k], i + 1)
  }

  ghost predicate Chain<I, O>(tail: seq<Node<I, O>>)
    reads tail
  {
    forall k :: 0 <= k < |tail| ==> Chained(tail, k)
  }

  /** Where the returns of the stretch are. */
  ghost predicate Returns<I, O>(es: seq<Entry<I, O>>, i: nat, tail: seq<Node<I, O>>, mates: map<nat, Node<I, O>>) {
    && i <= |es| && |tail| == |es| - i
    && forall k :: 0 <= k < |tail| ==> Listed(es, i + k, tail[k], mates)
  }

  ghost predicate Listed<I, O>(es: seq<Entry<I, O>>, j: nat, node: Node<I, O>, mates: map<nat, Node<I, O>>)
    requires j < |es|
  {
    es[j].Return? ==> es[j].id in mates && mates[es[j].id] == node
  }

  method MakeLinkedEntries<I, O>(es: seq<Entry<I, O>>, ghost n: nat) returns (root: Node?<I, O>, ghost tail: seq<Node<I, O>>)
    requires Paired(es, n)
    ensures fresh(tail) && Nodes(es, 0, tail) && Chain(tail) && |tail| == |es|
    ensures root == if es == [] then null else tail[0]
  {
    root, tail := null, [];
    var mates: map<nat, Node<I, O>> := map[];
    var i := |es|;
    while i > 0
      invariant 0 <= i <= |es|
      invariant fresh(tail) && Nodes(es, i, tail) && Chain(tail) && Returns(es, i, tail, mates)
      invariant |tail| == |es| - i && root == if tail == [] then null else tail[0]
    {
      hide Paired, Returns, Nodes, Chain, Counting;
      NodesCount(es, i, tail);
      i := i - 1;
      var elem := es[i];
      var node;
      if elem.Return? {
        node := new Node(Output(elem.output), null, elem.id, i + 1);
        ReturnGrows(es, n, i, tail, mates, node);
        mates := mates[elem.id := node];
      } else {
        ReturnKnown(es, n, i, tail, mates);
        node := new Node(Input(elem.input), mates[elem.id], elem.id, i + 1);
        CallGrows(es, i, tail, mates, node);
      }
      LinkFront(node, root, tail);
      root := node;
      tail := [node] + tail;
    }
  }

  lemma ReturnGrows<I, O>(es: seq<Entry<I, O>>, n: nat, i: nat, tail: seq<Node<I, O>>, mates: map<nat, Node<I, O>>, node: Node<I, O>)
    requires Paired(es, n) && i < |es| && es[i].Return? && Returns(es, i + 1, tail, mates) && Nodes(es, i + 1, tail)
    requires NodeFor(es, node, i)
    ensures Returns(es, i, [node] + tail, mates[es[i].id := node]) && Nodes(es, i, [node] + tail)
  {
    NodesGrow(es, i, tail, node);
    hide Nodes;
    var longer := [node] + tail;
    var mates' := mates[es[i].id := node];
    forall k | 0 <= k < |longer| ensures Listed(es, i + k, longer[k], mates') {
      if k > 0 {
        assert Listed(es, i + 1 + (k - 1), tail[k - 1], mates);
        assert !SameSlot(es[i], es[i + k]);
      }
    }
  }

  lemma CallGrows<I, O>(es: seq<Entry<I, O>>, i: nat, tail: seq<Node<I, O>>, mates: map<nat, Node<I, O>>, node: Node<I, O>)
    requires i < |es| && es[i].Call? && Returns(es, i + 1, tail, mates) && Nodes(es, i + 1, tail)
    requires NodeFor(es, node, i) && i + 2 <= node.mate.pos <= |es| && node.mate == tail[node.mate.pos - i - 2]
    ensures Returns(es, i, [node] + tail, mates) && Nodes(es, i, [node] + tail)
  {
    NodesGrow(es, i, tail, node);
    hide Nodes;
    var longer := [node] + tail;
    forall k | 0 <= k < |longer| ensures Listed(es, i + k, longer[k], mates) {
      if k > 0 {
        assert Listed(es, i + 1 + (k - 1), tail[k - 1], mates);
      }
    }
  }

  lemma NodesGrow<I, O>(es: seq<Entry<I, O>>, i: nat, tail: seq<Node<I, O>>, node: Node<I, O>)
    requires i < |es| && Nodes(es, i + 1, tail) && NodeFor(es, node, i) && MatePlaced([node] + tail, node, i + 1)
    ensures Nodes(es, i, [node] + tail)
  {
    var longer := [node] + tail;
    forall k | 0 <= k < |longer| ensures NodeFor(es, longer[k], i + k) && MatePlaced(longer, longer[k], i + 1) {
      if k > 0 {
        assert NodeFor(es, tail[k - 1], i + 1 + (k - 1)) && MatePlaced(tail, tail[k - 1], i + 2);
      }
    }
  }

  ghost predicate Counting<I, O>(tail: seq<Node<I, O>>, base: nat) {
    forall k :: 0 <= k < |tail| ==> tail[k].pos == base + k
  }

  lemma NodesCount<I, O>(es: seq<Entry<I, O>>, i: nat, tail: seq<Node<I, O>>)
    requires Nodes(es, i, tail)
    ensures Counting(tail, i + 1)
  {
    forall k | 0 <= k < |tail| ensures tail[k].pos == i + 1 + k {
      assert NodeFor(es, tail[k], i + k);
    }
  }

  /** The new node goes to the front of the list. */
  method LinkFront<I, O>(node: Node<I, O>, root: Node?<I, O>, ghost tail: seq<Node<I, O>>)
    requires Chain(tail) && Counting(tail, node.pos + 1)
    requires node.next == null && node.prev == null && root == if tail == [] then null else tail[0]
    modifies node, tail
    ensures Chain([node] + tail)
  {
    assert root != null ==> Chained(tail, 0);
    InsertBefore(node, root);
    ghost var longer := [node] + tail;
    forall k | 0 <= k < |longer| ensures Chained(longer, k) {
      if k > 1 {
        assert old(Chained(tail, k - 1));
        assert longer[k] == tail[k - 1] && tail[k - 1] != tail[0];
      }
    }
  }

  lemma ReturnKnown<I, O>(es: seq<Entry<I, O>>, n: nat, i: nat, tail: seq<Node<I, O>>, mates: map<nat, Node<I, O>>)
    requires Paired(es, n) && i < |es| && es[i].Call? && Returns(es, i + 1, tail, mates) && Nodes(es, i + 1, tail)
    ensures es[i].id in mates
    ensures var mate := mates[es[i].id];
      && i + 2 <= mate.pos <= |es| && mate == tail[mate.pos - i - 2] && MateFor(es, mate, es[i].id, mate.pos - 1)
  {
    var x := es[i].id;
    PairAt(es, n, x);
    assert IsCall(es, x, i);
    var k := ReturnAt(es, x) - (i + 1);
    assert Listed(es, i + 1 + k, tail[k], mates);
    assert NodeFor(es, tail[k], i + 1 + k);
  }

  /** `length`. */
  method Length<I, O>(root: Node?<I, O>, ghost es: seq<Entry<I, O>>, ghost tail: seq<Node<I, O>>) returns (l: nat)
    requires |tail| == |es| && Chain(tail) && root == if tail == [] then null else tail[0]
    ensures l == |es|
  {
    l := 0;
    var n := root;
    while n != null
      invariant 0 <= l <= |tail| && n == if l < |tail| then tail[l] else null
      decreases |tail| - l
    {
      assert Chained(tail, l);
      n := n.next;
      l := l + 1;
    }
  }
}
