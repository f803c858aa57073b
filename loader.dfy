/**
 * Loading a `.vox` scene into the world: `SceneGraphTraverser` walks the
 * scene graph's transform, group and shape nodes and collects one entry per
 * shape model it reaches, or, for a file without a scene graph, inserts
 * every voxel of every model straight into the chunk map.
 */
module Loader {
  import opened Wrappers
  import opened Vectors
  import opened WorldCoords
  import opened World

  /** A byte-sized voxel coordinate or palette index, as the `.vox` format stores them. */
  type Byte = b: int | 0 <= b < 256

  /** The packed rotation of a `.vox` frame; the traversal only passes it along. */
  datatype Rotation = Rotation(packed: nat)

  /** The `.vox` encoding of the identity rotation. */
  const IDENTITY: Rotation := Rotation(4)

  datatype VoxVoxel = VoxVoxel(x: Byte, y: Byte, z: Byte, i: Byte)

  datatype Model = Model(size: UVec3, voxels: seq<VoxVoxel>)

  /** One keyframe of a transform node: its parsed position and orientation attributes. */
  datatype Frame = Frame(position: Option<IVec3>, orientation: Option<Rotation>)

  datatype ShapeModel = ShapeModel(modelId: nat)

  datatype SceneNode =
    | TransformNode(frames: seq<Frame>, child: nat)
    | GroupNode(children: seq<nat>)
    | ShapeNode(models: seq<ShapeModel>)

  datatype DotVoxData = DotVoxData(models: seq<Model>, scenes: seq<SceneNode>)

  /** An entry of `SceneGraphTraverser::models`: translation, rotation, size and voxels of one placed model. */
  datatype ModelEntry = ModelEntry(translation: IVec3, rotation: Rotation, size: UVec3, voxels: seq<VoxVoxel>)

  function ChildrenOf(node: SceneNode): seq<nat> {
    match node
    case TransformNode(_, child) => [child]
    case GroupNode(children) => children
    case ShapeNode(_) => []
  }

  /**
   * `rank` orders the scene graph: every child that exists ranks below its
   * parent. The walk relies on the graph being acyclic; this makes that explicit.
   */
  ghost predicate Ranked(scenes: seq<SceneNode>, rank: seq<nat>) {
    && |rank| == |scenes|
    && forall i, k :: 0 <= i < |scenes| && 0 <= k < |ChildrenOf(scenes[i])| && ChildrenOf(scenes[i])[k] < |scenes| ==>
         rank[ChildrenOf(scenes[i])[k]] < rank[i]
  }

  /** The termination measure of the walk: missing nodes measure 0, existing ones their rank plus one. */
  ghost function Measure(rank: seq<nat>, node: nat): nat {
    if node < |rank| then rank[node] + 1 else 0
  }

  /**
   * The entries `traverse_recursive(node, translation, rotation)` appends, in
   * order, or the panic it ends in: a missing node or model index, or a
   * transform or shape node that does not hold exactly one frame or model.
   */
  ghost function Collect(scene: DotVoxData, rank: seq<nat>, node: nat, translation: IVec3, rotation: Rotation)
    : Fallible<seq<ModelEntry>>
    requires Ranked(scene.scenes, rank)
    decreases Measure(rank, node), 1, 0
  {
    if node >= |scene.scenes| then Panicked(IndexOutOfRange)
    else match scene.scenes[node]
      case TransformNode(frames, child) =>
        assert ChildrenOf(scene.scenes[node])[0] == child;
        if |frames| != 1 then Panicked(Unimplemented)
        else
          var frame := frames[0];
          var thisTranslation := if frame.position.Some? then frame.position.value else ZERO;
          var thisRotation := if frame.orientation.Some? then frame.orientation.value else IDENTITY;
          Collect(scene, rank, child, Add(translation, thisTranslation), thisRotation)
      case GroupNode(children) =>
        CollectChildren(scene, rank, node, |children|)
      case ShapeNode(models) =>
        if |models| != 1 then Panicked(Unimplemented)
        else if models[0].modelId >= |scene.models| then Panicked(IndexOutOfRange)
        else
          var model := scene.models[models[0].modelId];
          if model.voxels == [] then Done([])
          else Done([ModelEntry(translation, rotation, model.size, model.voxels)])
  }

  /** The entries the first `n` children of group node `group` append, each walked from zero and identity. */
  ghost function CollectChildren(scene: DotVoxData, rank: seq<nat>, group: nat, n: nat): Fallible<seq<ModelEntry>>
    requires Ranked(scene.scenes, rank)
    requires group < |scene.scenes| && scene.scenes[group].GroupNode?
    requires n <= |scene.scenes[group].children|
    decreases Measure(rank, group), 0, n
  {
    if n == 0 then Done([])
    else
      var child := scene.scenes[group].children[n - 1];
      assert ChildrenOf(scene.scenes[group])[n - 1] == child;
      match CollectChildren(scene, rank, group, n - 1)
      case Panicked(reason) => Panicked(reason)
      case Done(before) =>
        match Collect(scene, rank, child, ZERO, IDENTITY)
        case Panicked(reason) => Panicked(reason)
        case Done(entries) => Done(before + entries)
  }

  /** A panic in one child ends the group: later children do not change it. */
  lemma {:induction false} CollectChildrenPanicSticks(scene: DotVoxData, rank: seq<nat>, group: nat, k: nat, n: nat)
    requires Ranked(scene.scenes, rank)
    requires group < |scene.scenes| && scene.scenes[group].GroupNode?
    requires k <= n <= |scene.scenes[group].children|
    requires CollectChildren(scene, rank, group, k).Panicked?
    ensures CollectChildren(scene, rank, group, n) == CollectChildren(scene, rank, group, k)
    decreases n
  {
    if n > k {
      CollectChildrenPanicSticks(scene, rank, group, k, n - 1);
    }
  }

  /** Every entry places a non-empty model of the file, with that model's size and voxels. */
  ghost predicate FromModels(scene: DotVoxData, entries: seq<ModelEntry>) {
    forall e :: e in entries ==>
      e.voxels != [] &&
      exists m :: 0 <= m < |scene.models| && scene.models[m].size == e.size && scene.models[m].voxels == e.voxels
  }

  lemma {:induction false} CollectFromModels(scene: DotVoxData, rank: seq<nat>, node: nat, translation: IVec3, rotation: Rotation)
    requires Ranked(scene.scenes, rank)
    ensures Collect(scene, rank, node, translation, rotation).Done? ==>
      FromModels(scene, Collect(scene, rank, node, translation, rotation).value)
    decreases Measure(rank, node), 1, 0
  {
    if node < |scene.scenes| {
      match scene.scenes[node]
      case TransformNode(frames, child) =>
        assert ChildrenOf(scene.scenes[node])[0] == child;
        if |frames| == 1 {
          var frame := frames[0];
          var thisTranslation := if frame.position.Some? then frame.position.value else ZERO;
          var thisRotation := if frame.orientation.Some? then frame.orientation.value else IDENTITY;
          CollectFromModels(scene, rank, child, Add(translation, thisTranslation), thisRotation);
        }
      case GroupNode(children) =>
        CollectChildrenFromModels(scene, rank, node, |children|);
      case ShapeNode(models) =>
    }
  }

  lemma {:induction false} CollectChildrenFromModels(scene: DotVoxData, rank: seq<nat>, group: nat, n: nat)
    requires Ranked(scene.scenes, rank)
    requires group < |scene.scenes| && scene.scenes[group].GroupNode?
    requires n <= |scene.scenes[group].children|
    ensures CollectChildren(scene, rank, group, n).Done? ==> FromModels(scene, CollectChildren(scene, rank, group, n).value)
    decreases Measure(rank, group), 0, n
  {
    if n > 0 {
      var child := scene.scenes[group].children[n - 1];
      assert ChildrenOf(scene.scenes[group])[n - 1] == child;
      CollectChildrenFromModels(scene, rank, group, n - 1);
      CollectFromModels(scene, rank, child, ZERO, IDENTITY);
    }
  }

  /** A transform node discards the rotation it receives: its child gets the frame's own orientation. */
  lemma TransformDiscardsRotation(scene: DotVoxData, rank: seq<nat>, node: nat, translation: IVec3, r1: Rotation, r2: Rotation)
    requires Ranked(scene.scenes, rank)
    requires node < |scene.scenes| && scene.scenes[node].TransformNode?
    ensures Collect(scene, rank, node, translation, r1) == Collect(scene, rank, node, translation, r2)
  {
  }

  /** Nothing crosses a group node: its children are walked from zero translation and identity rotation. */
  lemma GroupResets(scene: DotVoxData, rank: seq<nat>, node: nat, t1: IVec3, r1: Rotation, t2: IVec3, r2: Rotation)
    requires Ranked(scene.scenes, rank)
    requires node < |scene.scenes| && scene.scenes[node].GroupNode?
    ensures Collect(scene, rank, node, t1, r1) == Collect(scene, rank, node, t2, r2)
  {
  }

  /** The position a `.vox` voxel takes in the world: the file's z axis is up, the world's y. */
  function VoxPosition(v: VoxVoxel): IVec3 {
    IVec3(v.x, v.z, v.y)
  }

  /** The voxel of every model, models in order, as `flat_map` yields them. */
  function FlatVoxels(models: seq<Model>): (r: seq<VoxVoxel>)
    ensures forall m, k :: 0 <= m < |models| && 0 <= k < |models[m].voxels| ==> models[m].voxels[k] in r
  {
    if models == [] then [] else FlatVoxels(models[..|models| - 1]) + models[|models| - 1].voxels
  }

  /** The voxel the first element of `vs` placed at `q` would store, if any. */
  function FirstAt(vs: seq<VoxVoxel>, q: IVec3): (r: Option<Voxel>)
    ensures r.Some? <==> exists k :: 0 <= k < |vs| && VoxPosition(vs[k]) == q
  {
    if vs == [] then None
    else if VoxPosition(vs[0]) == q then Some(Voxel(1.0, vs[0].i))
    else FirstAt(vs[1..], q)
  }

  /** Extending the list only fills positions that were still free: the first insert wins. */
  lemma {:induction false} FirstAtSnoc(vs: seq<VoxVoxel>, v: VoxVoxel, q: IVec3)
    ensures FirstAt(vs + [v], q) ==
      if FirstAt(vs, q).Some? then FirstAt(vs, q)
      else if VoxPosition(v) == q then Some(Voxel(1.0, v.i))
      else None
  {
    if vs != [] {
      assert (vs + [v])[1..] == vs[1..] + [v];
      FirstAtSnoc(vs[1..], v, q);
    }
  }

  /** A stored voxel stays; a free position takes the first voxel of the list placed there. */
  function FirstWins(existing: Option<Voxel>, vs: seq<VoxVoxel>, q: IVec3): Option<Voxel> {
    if existing.Some? then existing else FirstAt(vs, q)
  }

  /** Inserting one more voxel fills its position only when it is still free. */
  lemma FirstWinsSnoc(existing: Option<Voxel>, vs: seq<VoxVoxel>, v: VoxVoxel, q: IVec3)
    ensures FirstWins(existing, vs + [v], q) ==
      if FirstWins(existing, vs, q).Some? then FirstWins(existing, vs, q)
      else if VoxPosition(v) == q then Some(Voxel(1.0, v.i))
      else None
  {
    FirstAtSnoc(vs, v, q);
  }

  /** A `.vox` voxel always falls inside the world bounds. */
  lemma VoxPositionInBounds(v: VoxVoxel)
    ensures InBounds(VoxPosition(v))
  {
  }

  /** Every voxel's world position falls in a chunk of `chunks`: the flat load then meets no missing chunk. */
  ghost predicate AllGridsPresent(chunks: map<IVec3, Chunk>, voxels: seq<VoxVoxel>) {
    forall k :: 0 <= k < |voxels| ==> GridOf(VoxPosition(voxels[k])) in chunks
  }

  /** A world with every grid cell has a chunk for every `.vox` voxel. */
  lemma FullGridHoldsAll(chunks: map<IVec3, Chunk>, voxels: seq<VoxVoxel>)
    requires FullGrid(chunks)
    ensures AllGridsPresent(chunks, voxels)
  {
    forall k | 0 <= k < |voxels|
      ensures GridOf(VoxPosition(voxels[k])) in chunks
    {
      VoxPositionInBounds(voxels[k]);
      InBoundsHasGridCell(VoxPosition(voxels[k]));
    }
  }

  class SceneGraphTraverser {
    /** The chunk map the flat case inserts into. */
    const chunks: map<IVec3, Chunk>
    const scene: DotVoxData
    var models: seq<ModelEntry>

    constructor (chunks: map<IVec3, Chunk>, scene: DotVoxData)
      ensures this.chunks == chunks && this.scene == scene && models == []
    {
      this.chunks := chunks;
      this.scene := scene;
      models := [];
    }

    /**
     * `traverse_recursive`: appends exactly the entries `Collect` gives, or
     * ends in its panic.
     */
    method TraverseRecursive(node: nat, translation: IVec3, rotation: Rotation, ghost rank: seq<nat>)
      returns (r: Fallible<()>)
      requires Ranked(scene.scenes, rank)
      modifies this`models
      ensures Collect(scene, rank, node, translation, rotation).Done? ==>
        r == Done(()) && models == old(models) + Collect(scene, rank, node, translation, rotation).value
      ensures Collect(scene, rank, node, translation, rotation).Panicked? ==>
        r == Panicked(Collect(scene, rank, node, translation, rotation).reason)
      decreases Measure(rank, node), 1
    {
      if node >= |scene.scenes| {
        return Panicked(IndexOutOfRange);
      }
      match scene.scenes[node]
      case TransformNode(frames, child) =>
        assert ChildrenOf(scene.scenes[node])[0] == child;
        if |frames| != 1 {
          return Panicked(Unimplemented);
        }
        var frame := frames[0];
        var thisTranslation := if frame.position.Some? then frame.position.value else ZERO;
        var thisRotation := if frame.orientation.Some? then frame.orientation.value else IDENTITY;
        r := TraverseRecursive(child, Add(translation, thisTranslation), thisRotation, rank);
      case GroupNode(children) =>
        r := TraverseChildren(node, rank);
      case ShapeNode(shapeModels) =>
        if |shapeModels| != 1 {
          return Panicked(Unimplemented);
        }
        var shapeModel := shapeModels[0];
        if shapeModel.modelId >= |scene.models| {
          return Panicked(IndexOutOfRange);
        }
        var model := scene.models[shapeModel.modelId];
        if model.voxels == [] {
          return Done(());
        }
        models := models + [ModelEntry(translation, rotation, model.size, model.voxels)];
        r := Done(());
    }

    /** The loop over a group node's children: each is walked in order from zero and identity. */
    method TraverseChildren(group: nat, ghost rank: seq<nat>) returns (r: Fallible<()>)
      requires Ranked(scene.scenes, rank)
      requires group < |scene.scenes| && scene.scenes[group].GroupNode?
      modifies this`models
      ensures var all := CollectChildren(scene, rank, group, |scene.scenes[group].children|);
        && (all.Done? ==> r == Done(()) && models == old(models) + all.value)
        && (all.Panicked? ==> r == Panicked(all.reason))
      decreases Measure(rank, group), 0
    {
      var children := scene.scenes[group].children;
      var k := 0;
      while k < |children|
        invariant 0 <= k <= |children|
        invariant CollectChildren(scene, rank, group, k).Done?
        invariant models == old(models) + CollectChildren(scene, rank, group, k).value
      {
        assert ChildrenOf(scene.scenes[group])[k] == children[k];
        var step := TraverseRecursive(children[k], ZERO, IDENTITY, rank);
        if step.Panicked? {
          CollectChildrenPanicSticks(scene, rank, group, k + 1, |children|);
          return step;
        }
        k := k + 1;
      }
      r := Done(());
    }

    /**
     * `traverse`. Without a scene graph every voxel of every model is
     * inserted at its world position with scale 1.0 and its palette index;
     * a position that is already taken keeps its voxel. With a scene graph
     * the walk starts at node 0 from zero translation and identity rotation
     * and leaves the chunks alone.
     */
    method Traverse(ghost rank: seq<nat>) returns (r: Fallible<()>)
      requires Ranked(scene.scenes, rank)
      requires Distinct(chunks) && AllValid(chunks)
      modifies this`models, chunks.Values
      ensures AllValid(chunks)
      ensures scene.scenes == [] ==> models == old(models)
      ensures scene.scenes == [] && r.Done? ==>
        forall q :: Lookup(chunks, q) == FirstWins(old(Lookup(chunks, q)), FlatVoxels(scene.models), q)
      ensures scene.scenes == [] && FullGrid(chunks) ==> r.Done?
      ensures scene.scenes == [] ==> (r.Done? <==> AllGridsPresent(chunks, FlatVoxels(scene.models)))
      ensures scene.scenes == [] && r.Panicked? ==> r.reason == MissingChunk
      ensures scene.scenes != [] ==> forall q :: Lookup(chunks, q) == old(Lookup(chunks, q))
      ensures scene.scenes != [] && Collect(scene, rank, 0, ZERO, IDENTITY).Done? ==>
        r == Done(()) && models == old(models) + Collect(scene, rank, 0, ZERO, IDENTITY).value
      ensures scene.scenes != [] && Collect(scene, rank, 0, ZERO, IDENTITY).Panicked? ==>
        r == Panicked(Collect(scene, rank, 0, ZERO, IDENTITY).reason)
    {
      if scene.scenes != [] {
        r := TraverseRecursive(0, ZERO, IDENTITY, rank);
      } else {
        r := InsertModelVoxels();
      }
    }

    /**
     * The flat case of `traverse`: every voxel of every model, in order, is
     * inserted at its world position with scale 1.0 and its palette index.
     */
    method InsertModelVoxels() returns (r: Fallible<()>)
      requires Distinct(chunks) && AllValid(chunks)
      modifies chunks.Values
      ensures AllValid(chunks)
      ensures r.Done? ==>
        forall q :: Lookup(chunks, q) == FirstWins(old(Lookup(chunks, q)), FlatVoxels(scene.models), q)
      ensures FullGrid(chunks) ==> r.Done?
      ensures r.Done? <==> AllGridsPresent(chunks, FlatVoxels(scene.models))
      ensures r.Panicked? ==> r.reason == MissingChunk
    {
      var voxels := FlatVoxels(scene.models);
      var k := 0;
      while k < |voxels|
        invariant 0 <= k <= |voxels|
        invariant AllValid(chunks)
        invariant forall j :: 0 <= j < k ==> GridOf(VoxPosition(voxels[j])) in chunks
        invariant forall q :: Lookup(chunks, q) == FirstWins(old(Lookup(chunks, q)), voxels[..k], q)
      {
        var v := voxels[k];
        r := InsertModelVoxel(v);
        if r.Panicked? {
          return;
        }
        assert voxels[..k + 1] == voxels[..k] + [v];
        forall q
          ensures Lookup(chunks, q) == FirstWins(old(Lookup(chunks, q)), voxels[..k + 1], q)
        {
          FirstWinsSnoc(old(Lookup(chunks, q)), voxels[..k], v, q);
        }
        k := k + 1;
      }
      assert voxels[..k] == voxels;
      r := Done(());
      if FullGrid(chunks) {
        FullGridHoldsAll(chunks, voxels);
      }
    }

    /**
     * One insertion of the flat case: the voxel lands at its world position
     * unless that position is already filled; a missing chunk panics.
     */
    method InsertModelVoxel(v: VoxVoxel) returns (r: Fallible<()>)
      requires Distinct(chunks) && AllValid(chunks)
      modifies chunks.Values
      ensures AllValid(chunks)
      ensures r.Panicked? <==> GridOf(VoxPosition(v)) !in chunks
      ensures r.Panicked? ==> r.reason == MissingChunk
      ensures r.Done? ==>
        forall q :: Lookup(chunks, q) ==
          if old(Lookup(chunks, q)).Some? then old(Lookup(chunks, q))
          else if VoxPosition(v) == q then Some(Voxel(1.0, v.i))
          else None
    {
      VoxPositionInBounds(v);
      var inserted := InsertVoxel(chunks, VoxPosition(v), Voxel(1.0, v.i));
      if inserted.Panicked? {
        return Panicked(inserted.reason);
      }
      r := Done(());
    }
  }
}
