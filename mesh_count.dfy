/**
 Specification of the Scene's mesh usage table: a map from mesh identity to
 the number of registered objects that use that mesh in at least one of
 their three level-of-detail slots.
 */
module MeshCounting {
  import opened SceneTypes

  type CountTable = map<MeshId, nat>

  /** The usage count the table gives a mesh; a mesh without an entry counts 0. */
  function Count(t: CountTable, m: MeshId): nat
  {
    if m in t then t[m] else 0
  }

  /** The mesh of one slot, as a set: empty for a null slot. */
  function SlotSet(s: Option<MeshId>): set<MeshId>
  {
    if s.Some? then {s.value} else {}
  }

  /** The distinct meshes an object uses: the non-null values among its three slots. */
  function SlotMeshes(o: SceneObject): set<MeshId>
  {
    SlotSet(o.mesh) + SlotSet(o.meshMid) + SlotSet(o.meshLow)
  }

  /** The table after registering `o`: every distinct mesh of `o` is counted once more. */
  function Registered(t: CountTable, o: SceneObject): CountTable
  {
    map m | m in t.Keys + SlotMeshes(o) :: Count(t, m) + (if m in SlotMeshes(o) then 1 else 0)
  }

  /** The table after looking `m` up: a missing entry is created with count 0. */
  function Touched(t: CountTable, m: MeshId): CountTable
  {
    if m in t then t else t[m := 0]
  }

  /** One operation on the table: registering an object, or querying a mesh. */
  datatype Op = Add(obj: SceneObject) | Query(mesh: MeshId)

  function Apply(t: CountTable, op: Op): CountTable
  {
    match op
    case Add(o) => Registered(t, o)
    case Query(m) => Touched(t, m)
  }

  /** The table after a history of operations, oldest first. */
  function Replay(t: CountTable, ops: seq<Op>): CountTable
  {
    if ops == [] then t else Apply(Replay(t, ops[..|ops| - 1]), ops[|ops| - 1])
  }

  /** How many registered objects of the history use `m` (each object at most once). */
  function Uses(ops: seq<Op>, m: MeshId): nat
  {
    if ops == [] then 0
    else
      Uses(ops[..|ops| - 1], m) +
      (match ops[|ops| - 1]
       case Add(o) => if m in SlotMeshes(o) then 1 else 0
       case Query(_) => 0)
  }

  /** Every mesh the history mentions, whether by registration or by query. */
  function Mentioned(ops: seq<Op>): set<MeshId>
  {
    if ops == [] then {}
    else
      Mentioned(ops[..|ops| - 1]) +
      (match ops[|ops| - 1]
       case Add(o) => SlotMeshes(o)
       case Query(m) => {m})
  }

  /** `u` is `t` with every mesh of `s` counted once more and nothing else changed. */
  ghost predicate CountedOnce(t: CountTable, u: CountTable, s: set<MeshId>)
  {
    && u.Keys == t.Keys + s
    && forall k :: Count(u, k) == Count(t, k) + (if k in s then 1 else 0)
  }

  /** Counting one more mesh, not yet counted, extends the set of counted meshes by it. */
  lemma CountedOnceStep(t: CountTable, u: CountTable, s: set<MeshId>, m: MeshId)
    requires CountedOnce(t, u, s) && m !in s
    ensures CountedOnce(t, u[m := Count(u, m) + 1], s + {m})
  {
  }

  /** Counting the meshes of `o` once each gives exactly the registered table. */
  lemma CountedOnceIsRegistered(t: CountTable, u: CountTable, o: SceneObject)
    requires CountedOnce(t, u, SlotMeshes(o))
    ensures u == Registered(t, o)
  {
    var r := Registered(t, o);
    forall k | k in u
      ensures k in r && u[k] == r[k]
    {
      assert Count(u, k) == u[k];
    }
  }

  /** A query never changes any usage count. */
  lemma TouchedKeepsCounts(t: CountTable, m: MeshId)
    ensures forall k :: Count(Touched(t, m), k) == Count(t, k)
    ensures Touched(t, m).Keys == t.Keys + {m}
  {
  }

  /**
   After any history of registrations and queries, the count of every mesh
   has grown by exactly the number of registered objects that use it.
   */
  lemma {:induction false} ReplayCounts(t: CountTable, ops: seq<Op>, m: MeshId)
    ensures Count(Replay(t, ops), m) == Count(t, m) + Uses(ops, m)
  {
    if ops != [] {
      var init, last := ops[..|ops| - 1], ops[|ops| - 1];
      ReplayCounts(t, init, m);
      match last
      case Add(o) =>
      case Query(q) => TouchedKeepsCounts(Replay(t, init), q);
    }
  }

  /** Entries are never removed, and the only new entries are meshes the history mentions. */
  lemma {:induction false} ReplayKeys(t: CountTable, ops: seq<Op>)
    ensures Replay(t, ops).Keys == t.Keys + Mentioned(ops)
  {
    if ops != [] {
      ReplayKeys(t, ops[..|ops| - 1]);
    }
  }

  /**
   Starting from the empty table of a new Scene, a query for `m` answers the
   number of registered objects that use `m`, which is 0 for a mesh never seen.
   */
  lemma {:induction false} CountsFromEmpty(ops: seq<Op>, m: MeshId)
    ensures Count(Replay(map[], ops), m) == Uses(ops, m)
    ensures m !in Mentioned(ops) ==> Count(Replay(map[], ops), m) == 0
  {
    ReplayCounts(map[], ops, m);
    ReplayKeys(map[], ops);
  }
}
