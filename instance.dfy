/** The acceleration-structure instance record that every instance producer writes. */
module Instances {
  import opened Vectors

  /**
   * A 3x4 row-major instance transform whose 3x3 part is `scale * stride`
   * times the identity (a voxel scale times a level-of-detail stride). Its
   * translation column is `translation + offset` on every axis: an integer
   * part and a common real offset (zero everywhere but at higher levels of
   * detail).
   */
  datatype Transform = Transform(scale: real, stride: nat, translation: IVec3, offset: real)

  /**
   * AccelerationStructureInstance: the BLAS device address, the 24-bit custom
   * index and the 8-bit visibility mask packed together, and the transform.
   */
  datatype Instance = Instance(blasReference: nat, customIndex: nat, mask: nat, transform: Transform)

  const VISIBLE_MASK: nat := 0xFF
  const HIDDEN_MASK: nat := 0x00

  /** Size in bytes of one instance record in a buffer. */
  const INSTANCE_SIZE: nat := 64

  /** The identity 3x3 part with an integer translation. */
  function Translated(translation: IVec3): Transform {
    Transform(1.0, 1, translation, 0.0)
  }

  /** The random draws behind one generated instance: an integer translation and a custom index. */
  datatype Sample = Sample(x: int, y: int, z: int, customIndex: nat)

  /** The instances generated from `samples`: the given BLAS, the visible mask, an identity 3x3 part. */
  function SampledInstances(blasReference: nat, samples: seq<Sample>): (r: seq<Instance>)
    ensures |r| == |samples|
    ensures forall i :: 0 <= i < |r| ==>
              && r[i].blasReference == blasReference
              && r[i].mask == VISIBLE_MASK
              && r[i].customIndex == samples[i].customIndex
              && r[i].transform == Translated(IVec3(samples[i].x, samples[i].y, samples[i].z))
  {
    if samples == [] then []
    else
      var s := samples[0];
      [Instance(blasReference, s.customIndex, VISIBLE_MASK, Translated(IVec3(s.x, s.y, s.z)))]
      + SampledInstances(blasReference, samples[1..])
  }

  /** `buffer` with the slots from `start` on replaced by `window`, in order; every other slot kept. */
  function Overwrite(buffer: seq<Instance>, start: nat, window: seq<Instance>): (r: seq<Instance>)
    requires start + |window| <= |buffer|
    ensures |r| == |buffer|
    ensures forall i :: 0 <= i < |r| ==> r[i] == if start <= i < start + |window| then window[i - start] else buffer[i]
  {
    buffer[..start] + window + buffer[start + |window|..]
  }
}
