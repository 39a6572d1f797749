/**
 Specification of the debug bounding-box walk: the debug nodes a tree yields,
 in the order the walk appends them, and independent counts of the bounding
 volumes the walk finds.
 */
module DebugAabb {
  import opened SceneTypes

  /** The debug node for a node's own box, if it has one. */
  function OwnDebugNodes(box: Option<Aabb>): seq<DebugNode>
  {
    if box.Some? then [DebugNodeFor(box.value)] else []
  }

  /** The debug nodes for the bounded objects of `objs`, in order. */
  function ObjectDebugNodes(objs: seq<SceneObject>): (r: seq<DebugNode>)
    ensures |r| <= |objs|
    ensures forall d :: d in r ==> exists o :: o in objs && o.bounding.Some? && d == DebugNodeFor(o.bounding.value)
  {
    if objs == [] then []
    else ObjectDebugNodes(objs[..|objs| - 1]) + OwnDebugNodes(objs[|objs| - 1].bounding)
  }

  /**
   The debug nodes the walk appends for `n`: its own box first, then each child's
   subtree in order, then, only when `n` has no children, its bounded objects.
   */
  function DebugNodes(n: Node): seq<DebugNode>
    decreases n, 1
  {
    OwnDebugNodes(n.boundingBox)
    + ChildrenDebugNodes(n, |n.children|)
    + (if |n.children| == 0 then ObjectDebugNodes(n.objects) else [])
  }

  /** The debug nodes of the subtrees of the first `k` children of `n`. */
  function ChildrenDebugNodes(n: Node, k: nat): seq<DebugNode>
    requires k <= |n.children|
    decreases n, 0, k
  {
    if k == 0 then [] else ChildrenDebugNodes(n, k - 1) + DebugNodes(n.children[k - 1])
  }

  /** How many objects of `objs` carry a bounding volume. */
  function BoundedObjectCount(objs: seq<SceneObject>): nat
  {
    if objs == [] then 0
    else (if objs[0].bounding.Some? then 1 else 0) + BoundedObjectCount(objs[1..])
  }

  /** How many nodes of the subtree of `n` (itself included) have a bounding box. */
  function BoxedNodeCount(n: Node): nat
    decreases n, 1
  {
    (if n.boundingBox.Some? then 1 else 0) + ChildrenBoxedNodeCount(n, |n.children|)
  }

  function ChildrenBoxedNodeCount(n: Node, k: nat): nat
    requires k <= |n.children|
    decreases n, 0, k
  {
    if k == 0 then 0 else ChildrenBoxedNodeCount(n, k - 1) + BoxedNodeCount(n.children[k - 1])
  }

  /** How many bounded objects hang on the childless nodes of the subtree of `n`. */
  function LeafObjectCount(n: Node): nat
    decreases n, 1
  {
    if |n.children| == 0 then BoundedObjectCount(n.objects)
    else ChildrenLeafObjectCount(n, |n.children|)
  }

  function ChildrenLeafObjectCount(n: Node, k: nat): nat
    requires k <= |n.children|
    decreases n, 0, k
  {
    if k == 0 then 0 else ChildrenLeafObjectCount(n, k - 1) + LeafObjectCount(n.children[k - 1])
  }

  lemma {:induction false} BoundedObjectCountSnoc(objs: seq<SceneObject>, o: SceneObject)
    ensures BoundedObjectCount(objs + [o]) == BoundedObjectCount(objs) + (if o.bounding.Some? then 1 else 0)
  {
    if objs != [] {
      assert (objs + [o])[1..] == objs[1..] + [o];
      BoundedObjectCountSnoc(objs[1..], o);
    }
  }

  /** One debug node is appended for each bounded object, and no more. */
  lemma {:induction false} ObjectDebugNodesCount(objs: seq<SceneObject>)
    ensures |ObjectDebugNodes(objs)| == BoundedObjectCount(objs)
  {
    if objs != [] {
      var init, last := objs[..|objs| - 1], objs[|objs| - 1];
      ObjectDebugNodesCount(init);
      assert objs == init + [last];
      BoundedObjectCountSnoc(init, last);
    }
  }

  /**
   The walk over `n` appends exactly as many debug nodes as there are boxed
   nodes in the subtree plus bounded objects on its childless nodes.
   */
  lemma {:induction false} DebugNodesCount(n: Node)
    ensures |DebugNodes(n)| == BoxedNodeCount(n) + LeafObjectCount(n)
    decreases n, 1
  {
    ChildrenDebugNodesCount(n, |n.children|);
    if |n.children| == 0 {
      ObjectDebugNodesCount(n.objects);
    }
  }

  lemma {:induction false} ChildrenDebugNodesCount(n: Node, k: nat)
    requires k <= |n.children|
    ensures |ChildrenDebugNodes(n, k)| == ChildrenBoxedNodeCount(n, k) + ChildrenLeafObjectCount(n, k)
    decreases n, 0, k
  {
    if k > 0 {
      ChildrenDebugNodesCount(n, k - 1);
      DebugNodesCount(n.children[k - 1]);
    }
  }
}
