/**
 Values shared by the model of the Scene bookkeeping of the Tiny3D engine:
 identities of meshes and nodes, vectors, bounding boxes, placed objects
 and the node tree that the debug bounding-box walk visits.
 */
module SceneTypes {

  /** A nullable reference: None stands for a null pointer. */
  datatype Option<+T> = None | Some(value: T)

  /** Identity of a shared Mesh resource (the Mesh pointer in the engine). */
  type MeshId = nat

  /** Identity of a Node object held in a deferred queue. */
  type NodeId = nat

  datatype Vec3 = Vec3(x: real, y: real, z: real)

  /** An axis-aligned bounding box: its position and its extent on each axis. */
  datatype Aabb = Aabb(position: Vec3, sizeX: real, sizeY: real, sizeZ: real)

  /**
   A placed object: its high, mid and low level-of-detail mesh slots
   (None for a null slot) and its optional bounding volume.
   */
  datatype SceneObject = SceneObject(
    mesh: Option<MeshId>,
    meshMid: Option<MeshId>,
    meshLow: Option<MeshId>,
    bounding: Option<Aabb>)

  /** A node of the scene tree: an optional bounding box, its children and its attached objects. */
  datatype Node = Node(boundingBox: Option<Aabb>, children: seq<Node>, objects: seq<SceneObject>)

  /** A debug wireframe node: placed at a box's position and scaled to the box's extent. */
  datatype DebugNode = DebugNode(position: Vec3, size: Vec3)

  /** The debug node that mirrors one bounding box. */
  function DebugNodeFor(b: Aabb): DebugNode
  {
    DebugNode(b.position, Vec3(b.sizeX, b.sizeY, b.sizeZ))
  }
}
