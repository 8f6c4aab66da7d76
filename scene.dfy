/**
 * The host scene graph as the engine sees it: prim paths, the node record of
 * a prim, a stage (one opened scene) and the change notice the host sends
 * when a stage is edited.
 */
module Scene {
  import opened Optional

  /** A prim path as the names of its elements below the pseudo-root; `[]` is `/`. */
  type PrimPath = seq<string>

  /** A path as change notices report it: a prim path, or a property path `prim.name`. */
  datatype ScenePath = PrimAt(path: PrimPath) | PropertyAt(owner: PrimPath, name: string)

  /** `IsPrimPath()`: the pseudo-root `/` is not a prim path. */
  predicate IsPrimPath(p: ScenePath) {
    p.PrimAt? && p.path != []
  }

  /** `IsPropertyPath()`. */
  predicate IsPropertyPath(p: ScenePath) {
    p.PropertyAt?
  }

  /** `GetPrimPath()`: the prim a path belongs to. */
  function PrimPathOf(p: ScenePath): PrimPath {
    match p
    case PrimAt(q) => q
    case PropertyAt(owner, _) => owner
  }

  /** `.name`: the property name, or the last element of a prim path. */
  function NameOf(p: ScenePath): string {
    match p
    case PrimAt(q) => if q == [] then "" else q[|q| - 1]
    case PropertyAt(_, name) => name
  }

  /**
   * What the engine reads from a prim: its schema type name, the
   * `linkedClass` entries of its customData and of its assetInfo, and
   * whether it is active.
   */
  datatype Node = Node(
    typeName: string,
    customLinkedClass: Option<string>,
    assetLinkedClass: Option<string>,
    active: bool)

  /**
   * `GetCustomDataByKey("linkedClass") or GetAssetInfoByKey("linkedClass")`:
   * the customData entry unless it is missing or empty, else the assetInfo one.
   */
  function LinkedClass(n: Node): Option<string> {
    if n.customLinkedClass.Some? && n.customLinkedClass.value != "" then n.customLinkedClass
    else n.assetLinkedClass
  }

  type StageId = nat

  /**
   * One opened stage: its identity, its prims by path, and the order in
   * which the host enumerates them. `order` stands for the prims the
   * default `Traverse()` predicate admits on every count but activity
   * (defined, loaded, not abstract); activity is the one filter modelled,
   * because deactivating a prim is what the resync path reacts to.
   */
  datatype Stage = Stage(id: StageId, nodes: map<PrimPath, Node>, order: seq<PrimPath>) {

    /** `Traverse()`: the enumerated prims that exist and are active, in order. */
    function Traversal(): (r: seq<PrimPath>)
      ensures forall p :: p in r <==> p in order && p in nodes && nodes[p].active
    {
      ActiveIn(order)
    }

    function ActiveIn(ps: seq<PrimPath>): (r: seq<PrimPath>)
      ensures forall p :: p in r <==> p in ps && p in nodes && nodes[p].active
    {
      if ps == [] then []
      else
        var rest := ActiveIn(ps[..|ps| - 1]);
        var last := ps[|ps| - 1];
        assert forall p :: p in ps <==> p in ps[..|ps| - 1] || p == last;
        if last in nodes && nodes[last].active then rest + [last] else rest
    }
  }

  /** `Usd.Notice.ObjectsChanged`: the resynced paths and the changed-info-only paths. */
  datatype ObjectsChanged = ObjectsChanged(resynced: seq<ScenePath>, changedInfoOnly: seq<ScenePath>)
}
