/** The untyped intermediate form that translators produce and consume. */
module Nodes {

  /** Where a node sits in the object graph: field and segment names from the root. */
  datatype Path = Root | Child(parent: Path, segment: string)

  /** A scalar leaf, an ordered list of nodes, or named children in insertion order. */
  datatype EntityNode<S> =
    | Leaf(path: Path, value: S, indexed: bool)
    | ListNode(path: Path, items: seq<EntityNode<S>>)
    | MapNode(path: Path, children: seq<(string, EntityNode<S>)>)
}
