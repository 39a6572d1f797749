# Tiny3D Scene bookkeeping, modelled in Dafny

This project models the bookkeeping done by the `Scene` class of the Tiny3D
engine (`Win32Project1/scene/scene.cpp`). It has four parts:

- **Mesh usage table.** The `meshCount` map from a mesh to the number of placed
  objects that use it. `addObject` raises the count once for each distinct
  non-null mesh among an object's high, mid and low level-of-detail slots.
  `queryMeshCount` returns a count and creates a 0 entry when the mesh is missing.
- **Deferred node queues.** `nodesToUpdate` and `nodesToRemove` are drained by
  `updateNodes` and `flushNodes`. Each walks its queue once, front to back, then
  clears it.
- **Debug bounding boxes.** `createNodeAABB` walks a node tree. It appends one
  wireframe debug node for each bounding box it finds: first the node's own box,
  then each child's subtree, and, on a childless node, one per bounded object.
  `clearAllAABB` deletes the debug list.
- **Reflection camera.** When a water node and a reflection camera both exist,
  `updateReflectCamera` gives the reflection camera the main camera's look
  direction mirrored in the water plane.

Files:

- `types.dfy` (module `SceneTypes`): mesh and node identities, vectors, boxes,
  objects, the node tree and debug nodes.
- `mesh_count.dfy` (module `MeshCounting`): what a count table means. It defines
  the table after one registration or query, and a replay of any history of those.
- `debug_aabb.dfy` (module `DebugAabb`): the debug nodes a tree yields, in walk
  order, and separate counts of boxed nodes and bounded leaf objects.
- `reflection.dfy` (module `Reflection`): mirroring a look direction.
- `scene.dfy` (module `SceneCore`): the `Scene` class and a `Camera` class with
  only its look direction. `Scene`'s methods follow the source statement by
  statement, except where "## Left out" says otherwise, and are proved against
  the functions above.

Five calls into the Node and Camera classes outside `scene.cpp` are recorded in
ghost logs instead:

- `updateNode` on a queued node, in `updated`;
- `delete` of a queued node, in `deleted`;
- `delete` of a debug node, in `disposedDebugNodes`;
- `delete` of the old reflection camera, in `deletedCameras`;
- `delete` of the old water node, in `deletedWater`.

Other such calls are not logged: `updateFrustum`, `prepareDrawcall`,
`Node::addObject` and the render-data calls. "## Left out" lists them.

## Model

| member | source | states |
|---|---|---|
| `SceneCore.Scene.constructor` | Win32Project1/scene/scene.cpp:13-31 | A new scene is not inited. Its main camera is new. The reflection camera is null. Sky, water, terrain and texture nodes are absent. The mesh table, both node queues and the debug list are empty. |
| `SceneCore.Scene.UpdateNodes` | Win32Project1/scene/scene.cpp:53-59 | Each queued node is recomputed exactly once, in queue order. The queue is then empty. On an empty queue nothing is recomputed. |
| `SceneCore.Scene.FlushNodes` | Win32Project1/scene/scene.cpp:61-67 | Each node queued for removal is deleted exactly once, in queue order. The queue is then empty. On an empty queue nothing is deleted. |
| `SceneCore.Scene.UpdateReflectCamera` | Win32Project1/scene/scene.cpp:69-78 | With water and a reflection camera both present, the reflection look direction becomes (main.x, -main.y, main.z) of the main camera's direction before the call. Without water, the reflection camera is unchanged. A main camera distinct from the reflection camera is never changed. |
| `SceneCore.Scene.CreateReflectCamera` | Win32Project1/scene/scene.cpp:80-83 | Any old reflection camera is logged as deleted, and a newly allocated camera is installed. Without an old camera, nothing is logged. |
| `SceneCore.Scene.CreateWater` | Win32Project1/scene/scene.cpp:90-92 | Any old water node is logged as deleted, and the new node is installed. Without an old water node, nothing is logged. |
| `SceneCore.Scene.CreateNodeAABB` | Win32Project1/scene/scene.cpp:121-157 | The debug list keeps all its earlier entries. It grows by exactly the debug nodes of the tree: own box first, then children's subtrees in order, then bounded objects only on childless nodes. The tree is a value and is not changed. |
| `SceneCore.Scene.AppendObjectAABBs` | Win32Project1/scene/scene.cpp:139-156 | The list grows by one debug node for each object with a bounding volume, in object order. Each debug node has the box's position and size. |
| `SceneCore.Scene.ClearAllAABB` | Win32Project1/scene/scene.cpp:159-163 | Each debug node is deleted exactly once, in list order. The list is then empty. |
| `SceneCore.Scene.IncrementMeshCount` | Win32Project1/scene/scene.cpp:168-170 | The entry for the mesh is created at 0 when missing, then raised by one. No other entry changes. |
| `SceneCore.Scene.AddObject` | Win32Project1/scene/scene.cpp:165-184 | Each distinct non-null mesh among the three slots gets exactly one extra use. A slot repeating an earlier slot adds nothing, and a null slot adds nothing. Every other entry, present or absent, is unchanged. |
| `SceneCore.Scene.QueryMeshCount` | Win32Project1/scene/scene.cpp:186-190 | The result is the existing count, or 0 when the mesh had no entry. A missing entry is created at 0. No other entry and no count changes. |
| `MeshCounting.CountedOnceIsRegistered` | Win32Project1/scene/scene.cpp:165-184 | A table in which each mesh of the object was counted once more, and nothing else changed, is exactly the registered table. |
| `MeshCounting.TouchedKeepsCounts` | Win32Project1/scene/scene.cpp:186-190 | A query changes no mesh's count. Its only new entry is the queried mesh. |
| `MeshCounting.ReplayCounts` | Win32Project1/scene/scene.cpp:165-190 | After any history of registrations and queries, each mesh's count has grown by exactly the number of registered objects that use it. |
| `MeshCounting.ReplayKeys` | Win32Project1/scene/scene.cpp:165-190 | History never removes an entry. The only new entries are meshes that some registration or query mentioned. |
| `MeshCounting.CountsFromEmpty` | Win32Project1/scene/scene.cpp:186-190 | From a new scene's empty table, a query answers the number of registered objects using the mesh, and 0 for a mesh the history never mentioned. |
| `DebugAabb.ObjectDebugNodes` | Win32Project1/scene/scene.cpp:139-156 | The object step appends no more debug nodes than there are objects. Each one mirrors the bounding volume of one of the objects. |
| `DebugAabb.ObjectDebugNodesCount` | Win32Project1/scene/scene.cpp:139-156 | The object step appends exactly as many debug nodes as there are objects with a bounding volume. |
| `DebugAabb.DebugNodesCount` | Win32Project1/scene/scene.cpp:121-157 | The walk appends exactly (boxed nodes in the subtree) + (bounded objects on childless nodes) debug nodes. |
| `DebugAabb.ChildrenDebugNodesCount` | Win32Project1/scene/scene.cpp:136-137 | Walking the first k children appends the sum of what each child's subtree contributes to both counts. |
| `Reflection.MirroredInvolutive` | Win32Project1/scene/scene.cpp:73-75 | Mirroring the look direction twice gives back the original direction. |
| `Reflection.MirroredKeepsLength` | Win32Project1/scene/scene.cpp:73-75 | Mirroring keeps the direction's squared length. |

## Left out

- Platform code (window, OpenGL context, message loop, the simulation and
  frame threads and their mutex): this is concurrency and foreign calls, and
  is not part of this model, nor is `Win32Project1/main.cpp`.
- Shadow cascades (`Win32Project1/shadow/shadow.cpp`): single-precision
  trigonometry, square roots and matrix products over a camera library that
  lives outside `scene.cpp` and `shadow.cpp`.
- The view-matrix part of `updateReflectCamera` is not modelled: the
  negate-Y/translate product, the matrix assignment and `updateFrustum`. This is
  floating-point matrix math over the math helpers and the Camera class, which
  live outside `scene.cpp`. Its matrix is a
  function-local static, computed once with the water height of the first call.
- `createSky`, `createTerrain`, `updateVisualTerrain`, and everything in
  `createWater` after replacing the pointer: these are asset-registry lookups
  and calls into the Node, Object and asset-manager classes, which live outside
  `scene.cpp`.
- CreateWater: only the pointer replacement and the old node's deletion are
  modelled. The new water object and its registration through `Node::addObject`
  are not.
- CreateReflectCamera: the new camera's look direction is a parameter. The
  source calls `new Camera(0.0)`, but the Camera constructor lives outside
  `scene.cpp`, so the model does not fix what direction that yields.
- UpdateNodes, FlushNodes: in the source, `Node::nodesToUpdate` and
  `Node::nodesToRemove` are static members of Node, shared by the whole process.
  The model makes them fields of each Scene instead. It does not capture two
  scenes sharing the queues, or a Scene constructor clearing queues that another
  scene still uses. The enqueue operations live in the Node class outside
  `scene.cpp` and are not modelled: a client assigns the queue fields directly.
- `initNodes` and the three root nodes, and `Instance::instanceTable.clear()`:
  the node and instance classes are not part of this model.
- The destructor `~Scene`: Dafny has no destructors.
- Node identities are plain numbers, so the model does not capture pointer
  aliasing between queue entries and live tree nodes.
- UpdateNodes: `updateNode` is assumed not to push onto the queues. The source
  walks to the size read at entry and then clears the queue, so a node queued
  during the walk would be dropped unprocessed. The model does not capture this.
- FlushNodes: the same assumption holds for the destructor of a deleted node.
  The ownership and freeing of subtrees and objects are not modelled.
- CreateNodeAABB: each debug node is a value (position and size), not a newly
  allocated `StaticNode`. Not modelled: the "box" mesh, the black material, the
  dynamic-batch flag, the render-data calls, and any mesh counting that
  `Node::addObject` may do for the box object.
- AddObject, IncrementMeshCount: counts are unbounded naturals. The source's
  `uint` counter wrap-around after 2^32 uses is not modelled.
- `queryMeshCount` on a null mesh pointer is not modelled, because mesh
  identities are never null.
- Camera: only the look direction is modelled. The main camera's initial
  direction is set by the Camera constructor, which lives outside `scene.cpp`,
  so it is a parameter of the Scene constructor. The source computes the look direction
  in single-precision floats, modelled as reals. Copying and negating a
  finite float is exact. The model does not cover -0.0, infinities or NaN,
  which reals do not have.
- The animation-count table, the discovery list and `addPlay` do not appear
  in `scene.cpp`, and are not modelled.
