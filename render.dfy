/**
 * The reader side of the double-buffered TLAS: `RayTracingRenderTask` owns
 * two TLAS copies built from the same instances, the instance buffer, and
 * the two flags it shares with the update worker; each frame binds the copy
 * the index flag names.
 */
module Render {
  import opened Wrappers
  import opened Vectors
  import opened Instances

  /** `index as usize` of a boolean copy index. */
  function Index(b: bool): nat {
    if b then 1 else 0
  }

  /**
   * The zip loop that fills the instance buffer: element `i` of `dst` takes
   * element `i` of `src` while both last; the rest of `dst` is left alone.
   */
  method CopyInstances(dst: array<Instance>, src: seq<Instance>)
    modifies dst
    ensures forall i :: 0 <= i < dst.Length ==> dst[i] == if i < |src| then src[i] else old(dst[i])
  {
    var i := 0;
    while i < dst.Length && i < |src|
      invariant 0 <= i <= dst.Length && i <= |src|
      invariant forall j :: 0 <= j < dst.Length ==> dst[j] == if j < i then src[j] else old(dst[j])
    {
      dst[i] := src[i];
      i := i + 1;
    }
  }

  class RayTracingRenderTask {
    const blas: nat
    const maxInstanceCount: nat
    /** Handles of the two TLAS copies. */
    const accelerationStructures: seq<nat>
    /** Their bindless ids, in the same order. */
    const accelerationStructureIds: seq<nat>
    /** The instance list each copy was last built from. */
    var tlas: seq<seq<Instance>>
    const instanceBuffer: array<Instance>
    /** Which copy the renderer binds. */
    var currentAsIndex: bool
    /** Set by the worker when it publishes a copy, cleared by every frame. */
    var showCurrentIndex: bool

    ghost predicate Valid()
      reads this
    {
      && |accelerationStructures| == 2 && accelerationStructures[0] != accelerationStructures[1]
      && |accelerationStructureIds| == 2 && accelerationStructureIds[0] != accelerationStructureIds[1]
      && |tlas| == 2
      && instanceBuffer.Length == maxInstanceCount
    }

    /**
     * `new`: one sampled instance per slot (the BLAS address, a random custom
     * index, mask 0xFF, identity 3x3 part), copied into an instance buffer of
     * `maxInstanceCount` slots; both TLAS copies are built from that list and
     * registered in order. The index starts at copy 0 with the show flag set.
     * The samples and the registered ids come from the caller; the sampling
     * radius takes `ilog2` of the count, which needs a positive count.
     */
    constructor (blas: nat, maxInstanceCount: nat, samples: seq<Sample>,
                 accelerationStructures: seq<nat>, accelerationStructureIds: seq<nat>)
      requires 0 < maxInstanceCount && |samples| == maxInstanceCount
      requires |accelerationStructures| == 2 && accelerationStructures[0] != accelerationStructures[1]
      requires |accelerationStructureIds| == 2 && accelerationStructureIds[0] != accelerationStructureIds[1]
      ensures Valid()
      ensures this.blas == blas && this.maxInstanceCount == maxInstanceCount
      ensures this.accelerationStructures == accelerationStructures
      ensures this.accelerationStructureIds == accelerationStructureIds
      ensures fresh(instanceBuffer)
      ensures instanceBuffer[..] == SampledInstances(blas, samples)
      ensures tlas == [SampledInstances(blas, samples), SampledInstances(blas, samples)]
      ensures !currentAsIndex && showCurrentIndex
    {
      var renderInstances := SampledInstances(blas, samples);
      this.blas := blas;
      this.maxInstanceCount := maxInstanceCount;
      this.accelerationStructures := accelerationStructures;
      this.accelerationStructureIds := accelerationStructureIds;
      tlas := [renderInstances, renderInstances];
      var buffer := new Instance[maxInstanceCount];
      CopyInstances(buffer, renderInstances);
      assert buffer[..] == renderInstances;
      instanceBuffer := buffer;
      currentAsIndex := false;
      showCurrentIndex := true;
    }

    /**
     * `execute`'s handoff part: loads the index once, clears the show flag
     * and binds the id of that copy. It never writes the index.
     */
    method Execute() returns (front: bool, bound: nat)
      requires Valid()
      modifies this`showCurrentIndex
      ensures front == currentAsIndex && currentAsIndex == old(currentAsIndex)
      ensures bound == accelerationStructureIds[Index(front)]
      ensures bound != accelerationStructureIds[Index(!front)]
      ensures !showCurrentIndex
    {
      front := currentAsIndex;
      showCurrentIndex := false;
      bound := accelerationStructureIds[Index(front)];
    }
  }
}
