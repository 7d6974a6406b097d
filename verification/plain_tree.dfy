/**
 * The serialisation-friendly shape of the tree, `{caption, fullPath, children}`,
 * handed to every exporter, and the caption-only shape that the exported
 * formats are able to carry.
 */
module PlainTree {

  /** The object `toObject` returns; `caption` is the source's `label` (a reserved word here). */
  datatype PlainNode = PlainNode(caption: string, fullPath: string, children: seq<PlainNode>)

  /** A tree of labels only: what survives an export that drops paths. */
  datatype LabelTree = LabelTree(caption: string, kids: seq<LabelTree>)

  /** Number of nodes in a forest, folders and files alike. */
  function NodeCount(nodes: seq<PlainNode>): (n: nat)
    decreases nodes
  {
    if nodes == [] then 0 else 1 + NodeCount(nodes[0].children) + NodeCount(nodes[1..])
  }

  lemma {:induction false} NodeCountAppend(a: seq<PlainNode>, b: seq<PlainNode>)
    ensures NodeCount(a + b) == NodeCount(a) + NodeCount(b)
    decreases a
  {
    if a == [] {
      assert a + b == b;
    } else {
      assert (a + b)[0] == a[0];
      assert (a + b)[1..] == a[1..] + b;
      NodeCountAppend(a[1..], b);
    }
  }

  /** Forgets the paths, keeping labels, shape and order. */
  function Labels(nodes: seq<PlainNode>): (r: seq<LabelTree>)
    ensures |r| == |nodes|
    ensures forall i :: 0 <= i < |nodes| ==> r[i].caption == nodes[i].caption
    decreases nodes
  {
    if nodes == [] then [] else [LabelTree(nodes[0].caption, Labels(nodes[0].children))] + Labels(nodes[1..])
  }

  lemma {:induction false} LabelsKids(nodes: seq<PlainNode>, i: nat)
    requires i < |nodes|
    ensures Labels(nodes)[i].kids == Labels(nodes[i].children)
    decreases nodes
  {
    if i > 0 {
      LabelsKids(nodes[1..], i - 1);
    }
  }
}
