/** The labeled graph container of Graph.h: node slots numbered by index in
    storage reserved at construction, and an edge table keyed by
    (from, to) pairs with lookup-with-default. */
module LabeledGraph {

  class Graph<N(0), E> {
    /** `invalid_edge`: the value `EdgeType()`, returned for absent edges. */
    const invalidEdge: E
    /** The storage `reserve(size)` sets aside; its length is the capacity. */
    const nodes: array<N>
    /** The node vector's size: `reserve` does not change it. */
    var nodeCount: nat
    var edges: map<(int, int), E>

    /** `Graph(size)`: capacity `size`, no nodes counted, no edges. */
    constructor (size: nat, invalidEdge: E)
      ensures fresh(nodes) && nodes.Length == size
      ensures nodeCount == 0 && edges == map[] && EdgeSize() == 0
      ensures this.invalidEdge == invalidEdge
    {
      this.invalidEdge := invalidEdge;
      nodes := new N[size];
      nodeCount := 0;
      edges := map[];
    }

    /** `node_size()`. */
    function NodeSize(): nat
      reads this
    {
      nodeCount
    }

    /** `edge_size()`. */
    function EdgeSize(): nat
      reads this
    {
      |edges|
    }

    /** `add_node(i, node)`: writes slot i only when 0 <= i < capacity (a
        negative index converts to a huge unsigned value and is rejected);
        no other slot, no edge and no count changes. */
    method AddNode(i: int, node: N)
      modifies nodes
      ensures 0 <= i < nodes.Length ==> nodes[i] == node
      ensures forall j :: 0 <= j < nodes.Length && j != i ==> nodes[j] == old(nodes[j])
      ensures !(0 <= i < nodes.Length) ==> nodes[..] == old(nodes[..])
      ensures edges == old(edges) && nodeCount == old(nodeCount)
    {
      if 0 <= i < nodes.Length {
        nodes[i] := node;
      }
    }

    /** `add_edge(key, edge)`: inserts or overwrites; afterwards `find_edge(key)`
        returns edge, every other key finds what it found before, the edge count
        grows by one exactly for a new key, and the nodes are untouched. */
    method AddEdge(key: (int, int), edge: E)
      modifies this
      ensures edges == old(edges)[key := edge]
      ensures FindEdge(key) == edge
      ensures forall k :: k != key && k in old(edges) ==> FindEdge(k) == old(edges)[k]
      ensures forall k :: k != key && k !in old(edges) ==> FindEdge(k) == invalidEdge
      ensures EdgeSize() == old(EdgeSize()) + (if key in old(edges) then 0 else 1)
      ensures nodeCount == old(nodeCount) && unchanged(nodes)
    {
      edges := edges[key := edge];
      if key in old(edges) {
        assert edges.Keys == old(edges).Keys;
      } else {
        assert edges.Keys == old(edges).Keys + {key};
      }
    }

    /** `find_edge(key)`: the stored edge, or `invalid_edge` for a key never added. */
    function FindEdge(key: (int, int)): (e: E)
      reads this
      ensures key in edges ==> e == edges[key]
      ensures key !in edges ==> e == invalidEdge
    {
      if key in edges then edges[key] else invalidEdge
    }
  }
}
