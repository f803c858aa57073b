/**
 * The compute-queue task that moves a random window of instances and then
 * refits the back TLAS copy in place (`UpdateAccelerationStructureTask` of
 * the asynchronous worker).
 */
module UpdateAs {
  import opened Wrappers
  import opened Vectors
  import opened Instances

  /** Instances rewritten per update (2^10). */
  const UPDATES_PER_FRAME: nat := 1024

  /** Each translation component is drawn from [-RANGE, RANGE]. */
  const RANGE: int := 256

  /** `as u32` keeps the low 32 bits. */
  const U32_MODULUS: nat := 0x1_0000_0000

  /** One draw of the update loop: each component in range, the custom index a random byte. */
  predicate ValidSample(s: Sample) {
    && -RANGE <= s.x <= RANGE
    && -RANGE <= s.y <= RANGE
    && -RANGE <= s.z <= RANGE
    && s.customIndex < 256
  }

  /** `BuildAccelerationStructureMode`: a fresh build, or an update (refit) of an existing structure. */
  datatype BuildMode = Build | Update(source: nat)

  /** The fields of the build the task records; structures are named by handle. */
  datatype BuildInfo = BuildInfo(
    mode: BuildMode,
    destination: nat,
    preferFastBuild: bool,
    allowUpdate: bool,
    primitiveCount: nat)

  /** The byte range of the write: `start_slice .. start_slice + UPDATES_PER_FRAME * AS_SIZE`. */
  function ByteRange(start: nat): (nat, nat) {
    (start * INSTANCE_SIZE, start * INSTANCE_SIZE + UPDATES_PER_FRAME * INSTANCE_SIZE)
  }

  /**
   * The byte range is whole instances: exactly the instance slots
   * [start, start + UPDATES_PER_FRAME). With the start drawn below
   * max - UPDATES_PER_FRAME these lie in the buffer and never reach its last slot.
   */
  lemma ByteRangeIsWindow(start: nat, maxInstanceCount: nat)
    ensures ByteRange(start).0 / INSTANCE_SIZE == start && ByteRange(start).0 % INSTANCE_SIZE == 0
    ensures ByteRange(start).1 / INSTANCE_SIZE == start + UPDATES_PER_FRAME && ByteRange(start).1 % INSTANCE_SIZE == 0
    ensures start < maxInstanceCount - UPDATES_PER_FRAME ==> start + UPDATES_PER_FRAME < maxInstanceCount
  {
    assert ByteRange(start).1 == (start + UPDATES_PER_FRAME) * INSTANCE_SIZE;
  }

  class UpdateAccelerationStructureTask {
    const blasReference: nat
    const maxInstanceCount: nat

    constructor (blasReference: nat, maxInstanceCount: nat)
      ensures this.blasReference == blasReference && this.maxInstanceCount == maxInstanceCount
    {
      this.blasReference := blasReference;
      this.maxInstanceCount := maxInstanceCount;
    }

    /**
     * `execute`: draws the window start (given as `start`), overwrites the
     * window of `buffer` with one fresh instance per draw in `samples`, and
     * records an in-place update build of `tlas` over the whole buffer.
     * `max - UPDATES_PER_FRAME` underflows below UPDATES_PER_FRAME and the
     * draw range is empty at UPDATES_PER_FRAME; a window past the end of the
     * buffer fails the write.
     */
    method Execute(buffer: array<Instance>, tlas: nat, start: nat, samples: seq<Sample>) returns (r: Fallible<BuildInfo>)
      requires maxInstanceCount > UPDATES_PER_FRAME ==> start < maxInstanceCount - UPDATES_PER_FRAME
      requires |samples| == UPDATES_PER_FRAME
      requires forall i :: 0 <= i < |samples| ==> ValidSample(samples[i])
      modifies buffer
      ensures maxInstanceCount < UPDATES_PER_FRAME ==> r == Panicked(Underflow)
      ensures maxInstanceCount == UPDATES_PER_FRAME ==> r == Panicked(EmptyRange)
      ensures maxInstanceCount > UPDATES_PER_FRAME && start + UPDATES_PER_FRAME > buffer.Length ==>
        r == Panicked(WriteOutOfRange)
      ensures maxInstanceCount > UPDATES_PER_FRAME && start + UPDATES_PER_FRAME <= buffer.Length ==> r.Done?
      ensures r.Panicked? ==> buffer[..] == old(buffer[..])
      ensures r.Done? ==>
        && start + UPDATES_PER_FRAME <= buffer.Length
        && buffer[..] == Overwrite(old(buffer[..]), start, SampledInstances(blasReference, samples))
        && r.value == BuildInfo(Update(tlas), tlas, true, true, maxInstanceCount % U32_MODULUS)
    {
      if maxInstanceCount < UPDATES_PER_FRAME {
        return Panicked(Underflow);
      }
      if maxInstanceCount == UPDATES_PER_FRAME {
        return Panicked(EmptyRange);
      }
      var (startSlice, endSlice) := ByteRange(start);
      ByteRangeIsWindow(start, maxInstanceCount);
      if endSlice > buffer.Length * INSTANCE_SIZE {
        return Panicked(WriteOutOfRange);
      }
      var first := startSlice / INSTANCE_SIZE;
      var last := endSlice / INSTANCE_SIZE;
      ghost var window := SampledInstances(blasReference, samples);
      var k := first;
      while k < last
        invariant first <= k <= last
        invariant forall i :: 0 <= i < buffer.Length ==>
          buffer[i] == if first <= i < k then window[i - first] else old(buffer[i])
      {
        var s := samples[k - first];
        buffer[k] := Instance(blasReference, s.customIndex, VISIBLE_MASK, Translated(IVec3(s.x, s.y, s.z)));
        k := k + 1;
      }
      assert buffer[..] == Overwrite(old(buffer[..]), start, window);
      r := Done(BuildInfo(Update(tlas), tlas, true, true, maxInstanceCount % U32_MODULUS));
    }
  }

  /**
   * Every instance the update writes carries the task's BLAS reference, the
   * visible mask, a byte custom index and an identity 3x3 part whose
   * translation components are integers in [-RANGE, RANGE].
   */
  lemma UpdatedInstancesWellFormed(blasReference: nat, samples: seq<Sample>)
    requires forall i :: 0 <= i < |samples| ==> ValidSample(samples[i])
    ensures forall inst :: inst in SampledInstances(blasReference, samples) ==>
      && inst.blasReference == blasReference
      && inst.mask == VISIBLE_MASK
      && inst.customIndex < 256
      && inst.transform.scale == 1.0 && inst.transform.stride == 1 && inst.transform.offset == 0.0
      && -RANGE <= inst.transform.translation.x <= RANGE
      && -RANGE <= inst.transform.translation.y <= RANGE
      && -RANGE <= inst.transform.translation.z <= RANGE
  {
  }
}
