/**
 The Scene object: constructor state, the deferred update/removal queues,
 the mesh usage table, the debug bounding-box list and the reflection
 camera's look direction.
 */
module SceneCore {
  import opened SceneTypes
  import opened MeshCounting
  import opened DebugAabb
  import opened Reflection

  /** A camera; only the look direction is modelled. */
  class Camera {
    var lookDir: Vec3

    constructor (look: Vec3)
      ensures lookDir == look
    {
      lookDir := look;
    }
  }

  class Scene {
    var inited: bool
    var mainCamera: Camera
    var reflectCamera: Camera?
    var skyBox: Option<NodeId>
    var water: Option<NodeId>
    var terrainNode: Option<NodeId>
    var textureNode: Option<NodeId>

    /** Usage count per mesh. */
    var meshCount: CountTable
    /** Nodes waiting for their bounds and world transform to be recomputed (Node::nodesToUpdate). */
    var nodesToUpdate: seq<NodeId>
    /** Nodes waiting to be destroyed (Node::nodesToRemove). */
    var nodesToRemove: seq<NodeId>
    /** Debug wireframe nodes created by CreateNodeAABB. */
    var boundingNodes: seq<DebugNode>

    /** Every node whose updateNode was invoked, in invocation order. */
    ghost var updated: seq<NodeId>
    /** Every queued node that was deleted, in deletion order. */
    ghost var deleted: seq<NodeId>
    /** Every debug node that was deleted, in deletion order. */
    ghost var disposedDebugNodes: seq<DebugNode>
    /** Every reflection camera that was deleted, in deletion order. */
    ghost var deletedCameras: seq<Camera>
    /** Every water node that was deleted, in deletion order. */
    ghost var deletedWater: seq<NodeId>

    /**
     A fresh scene: not yet inited, no reflection camera, no feature nodes,
     and an empty mesh table, queues and debug list. `mainLook` is the look
     direction the main camera's own constructor chooses.
     */
    constructor (mainLook: Vec3)
      ensures !inited
      ensures fresh(mainCamera) && mainCamera.lookDir == mainLook
      ensures reflectCamera == null
      ensures skyBox == None && water == None && terrainNode == None && textureNode == None
      ensures meshCount == map[] && boundingNodes == []
      ensures nodesToUpdate == [] && nodesToRemove == []
      ensures updated == [] && deleted == [] && disposedDebugNodes == []
      ensures deletedCameras == [] && deletedWater == []
    {
      inited := false;
      mainCamera := new Camera(mainLook);
      reflectCamera := null;
      skyBox := None;
      water := None;
      terrainNode := None;
      textureNode := None;
      boundingNodes := [];
      meshCount := map[];
      nodesToUpdate := [];
      nodesToRemove := [];
      updated, deleted, disposedDebugNodes := [], [], [];
      deletedCameras, deletedWater := [], [];
    }

    /**
     Recomputes every queued node once, front to back, and empties the queue;
     on an empty queue nothing happens.
     */
    method UpdateNodes()
      modifies this`nodesToUpdate, this`updated
      ensures updated == old(updated) + old(nodesToUpdate)
      ensures nodesToUpdate == []
      ensures old(nodesToUpdate) == [] ==> updated == old(updated)
    {
      var size := |nodesToUpdate|;
      if size == 0 {
        return;
      }
      for i := 0 to size
        invariant nodesToUpdate == old(nodesToUpdate)
        invariant updated == old(updated) + nodesToUpdate[..i]
      {
        // nodesToUpdate[i].updateNode()
        updated := updated + [nodesToUpdate[i]];
      }
      nodesToUpdate := [];
    }

    /**
     Deletes every node queued for removal once, front to back, and empties
     the queue; on an empty queue nothing happens.
     */
    method FlushNodes()
      modifies this`nodesToRemove, this`deleted
      ensures deleted == old(deleted) + old(nodesToRemove)
      ensures nodesToRemove == []
      ensures old(nodesToRemove) == [] ==> deleted == old(deleted)
    {
      var size := |nodesToRemove|;
      if size == 0 {
        return;
      }
      for i := 0 to size
        invariant nodesToRemove == old(nodesToRemove)
        invariant deleted == old(deleted) + nodesToRemove[..i]
      {
        // delete nodesToRemove[i]
        deleted := deleted + [nodesToRemove[i]];
      }
      nodesToRemove := [];
    }

    /**
     With both a water node and a reflection camera present, the reflection
     camera looks along the main camera's direction mirrored in the water
     plane; otherwise nothing changes.
     */
    method UpdateReflectCamera()
      modifies reflectCamera
      ensures water.Some? && reflectCamera != null ==>
                reflectCamera.lookDir == Mirrored(old(mainCamera.lookDir))
      ensures water.None? && reflectCamera != null ==> unchanged(reflectCamera)
      ensures mainCamera != reflectCamera ==> mainCamera.lookDir == old(mainCamera.lookDir)
    {
      if water.Some? && reflectCamera != null {
        reflectCamera.lookDir := reflectCamera.lookDir.(x := mainCamera.lookDir.x);
        reflectCamera.lookDir := reflectCamera.lookDir.(y := -mainCamera.lookDir.y);
        reflectCamera.lookDir := reflectCamera.lookDir.(z := mainCamera.lookDir.z);
      }
    }

    /**
     Deletes any reflection camera and installs a new one looking along `look`,
     the direction the Camera constructor chooses.
     */
    method CreateReflectCamera(look: Vec3)
      modifies this`reflectCamera, this`deletedCameras
      ensures reflectCamera != null && fresh(reflectCamera)
      ensures reflectCamera.lookDir == look
      ensures deletedCameras == old(deletedCameras) + (if old(reflectCamera) != null then [old(reflectCamera)] else [])
    {
      if reflectCamera != null {
        // delete reflectCamera
        deletedCameras := deletedCameras + [reflectCamera];
      }
      reflectCamera := new Camera(look);
    }

    /** Deletes any water node and installs the node `w` in its place. */
    method CreateWater(w: NodeId)
      modifies this`water, this`deletedWater
      ensures water == Some(w)
      ensures deletedWater == old(deletedWater) + (if old(water).Some? then [old(water).value] else [])
    {
      if water.Some? {
        // delete water
        deletedWater := deletedWater + [water.value];
      }
      water := Some(w);
    }

    /**
     Appends to the debug list one debug node per bounding volume the walk
     over `n` finds, in walk order, keeping every earlier entry.
     */
    method CreateNodeAABB(n: Node)
      modifies this`boundingNodes
      ensures boundingNodes == old(boundingNodes) + DebugNodes(n)
      decreases n
    {
      if n.boundingBox.Some? {
        boundingNodes := boundingNodes + [DebugNodeFor(n.boundingBox.value)];
      }
      ghost var afterOwn := boundingNodes;
      for i := 0 to |n.children|
        invariant boundingNodes == afterOwn + ChildrenDebugNodes(n, i)
      {
        CreateNodeAABB(n.children[i]);
      }
      if |n.children| == 0 {
        AppendObjectAABBs(n.objects);
      }
    }

    /** The leaf step of CreateNodeAABB: one debug node per bounded object, in order. */
    method AppendObjectAABBs(objs: seq<SceneObject>)
      modifies this`boundingNodes
      ensures boundingNodes == old(boundingNodes) + ObjectDebugNodes(objs)
    {
      for i := 0 to |objs|
        invariant boundingNodes == old(boundingNodes) + ObjectDebugNodes(objs[..i])
      {
        assert objs[..i + 1][..i] == objs[..i];
        var box := objs[i].bounding;
        if box.Some? {
          boundingNodes := boundingNodes + [DebugNodeFor(box.value)];
        }
      }
      assert objs[..|objs|] == objs;
    }

    /** Deletes every debug node once, front to back, and empties the list. */
    method ClearAllAABB()
      modifies this`boundingNodes, this`disposedDebugNodes
      ensures disposedDebugNodes == old(disposedDebugNodes) + old(boundingNodes)
      ensures boundingNodes == []
    {
      for i := 0 to |boundingNodes|
        invariant boundingNodes == old(boundingNodes)
        invariant disposedDebugNodes == old(disposedDebugNodes) + boundingNodes[..i]
      {
        disposedDebugNodes := disposedDebugNodes + [boundingNodes[i]];
      }
      boundingNodes := [];
    }

    /** Counts one more use of `m`, creating its entry at 0 first when missing. */
    method IncrementMeshCount(m: MeshId)
      modifies this`meshCount
      ensures meshCount == old(meshCount)[m := Count(old(meshCount), m) + 1]
    {
      if m !in meshCount {
        meshCount := meshCount[m := 0];
      }
      meshCount := meshCount[m := meshCount[m] + 1];
    }

    /**
     Registers `o`: each distinct non-null mesh among its three slots is
     counted exactly once more; null slots and slots repeating an earlier
     slot add nothing; every other entry is unchanged.
     */
    method AddObject(o: SceneObject)
      modifies this`meshCount
      ensures meshCount == Registered(old(meshCount), o)
      ensures forall m :: m in SlotMeshes(o) ==> m in meshCount && meshCount[m] == Count(old(meshCount), m) + 1
      ensures forall m :: m !in SlotMeshes(o) ==>
                (m in meshCount <==> m in old(meshCount)) && Count(meshCount, m) == Count(old(meshCount), m)
    {
      ghost var t := meshCount;
      var cur := o.mesh;
      if cur.Some? {
        CountedOnceStep(t, meshCount, {}, cur.value);
        IncrementMeshCount(cur.value);
      }
      assert CountedOnce(t, meshCount, SlotSet(o.mesh));
      cur := o.meshMid;
      if cur.Some? && cur != o.mesh {
        CountedOnceStep(t, meshCount, SlotSet(o.mesh), cur.value);
        IncrementMeshCount(cur.value);
      }
      assert CountedOnce(t, meshCount, SlotSet(o.mesh) + SlotSet(o.meshMid));
      cur := o.meshLow;
      if cur.Some? && cur != o.meshMid && cur != o.mesh {
        CountedOnceStep(t, meshCount, SlotSet(o.mesh) + SlotSet(o.meshMid), cur.value);
        IncrementMeshCount(cur.value);
      }
      assert CountedOnce(t, meshCount, SlotMeshes(o));
      CountedOnceIsRegistered(t, meshCount, o);
    }

    /**
     The usage count of `m`; on a miss the entry `m` with count 0 is created.
     No count changes.
     */
    method QueryMeshCount(m: MeshId) returns (c: nat)
      modifies this`meshCount
      ensures c == Count(old(meshCount), m)
      ensures meshCount == Touched(old(meshCount), m)
      ensures m in meshCount && meshCount[m] == c
      ensures m in old(meshCount) ==> meshCount == old(meshCount)
      ensures m !in old(meshCount) ==> c == 0 && meshCount == old(meshCount)[m := 0]
    {
      if m !in meshCount {
        meshCount := meshCount[m := 0];
      }
      c := meshCount[m];
    }
  }
}
