/**
 * The graphics-side variant of the instance update (`tasks/as_update.rs`):
 * a random window of a fixed-size instance buffer is reset to the default
 * instance by host writes, with no command recorded.
 */
module AsUpdate {
  import opened Wrappers
  import opened Vectors
  import opened Instances

  /** The instance buffer holds 2^20 instances. */
  const MAX_INSTANCE_COUNT: nat := 0x10_0000

  /** Instances reset per update. */
  const UPDATES_PER_FRAME: nat := 4096

  /** The instance every window slot becomes: custom index 0, visible, identity transform, no translation. */
  function DefaultInstance(blasReference: nat): Instance {
    Instance(blasReference, 0, VISIBLE_MASK, Translated(ZERO))
  }

  /** `UPDATES_PER_FRAME` copies of the default instance. */
  function DefaultWindow(blasReference: nat): (r: seq<Instance>)
    ensures |r| == UPDATES_PER_FRAME
    ensures forall i :: 0 <= i < |r| ==> r[i] == DefaultInstance(blasReference)
  {
    seq(UPDATES_PER_FRAME, _ => DefaultInstance(blasReference))
  }

  class UpdateAccelerationStructureTask {
    const blasReference: nat

    constructor (blasReference: nat)
      ensures this.blasReference == blasReference
    {
      this.blasReference := blasReference;
    }

    /**
     * `execute`: with the window start drawn from [0, MAX_INSTANCE_COUNT -
     * UPDATES_PER_FRAME) (given as `start`), every instance of the window
     * [start, start + UPDATES_PER_FRAME) becomes the default instance and
     * the rest of the buffer is left alone. The write is unwrapped, so a
     * window past the end of the buffer panics.
     */
    method Execute(buffer: array<Instance>, start: nat) returns (r: Fallible<()>)
      requires start < MAX_INSTANCE_COUNT - UPDATES_PER_FRAME
      modifies buffer
      ensures r.Panicked? <==> start + UPDATES_PER_FRAME > buffer.Length
      ensures r.Panicked? ==> r.reason == WriteOutOfRange
      ensures buffer.Length == MAX_INSTANCE_COUNT ==> r.Done?
      ensures r.Panicked? ==> buffer[..] == old(buffer[..])
      ensures r.Done? ==> buffer[..] == Overwrite(old(buffer[..]), start, DefaultWindow(blasReference))
    {
      var defaultInstance := DefaultInstance(blasReference);
      var startSlice := start * INSTANCE_SIZE;
      var endSlice := startSlice + UPDATES_PER_FRAME * INSTANCE_SIZE;
      assert endSlice == (start + UPDATES_PER_FRAME) * INSTANCE_SIZE;
      WindowInsideBuffer(start);
      if endSlice > buffer.Length * INSTANCE_SIZE {
        return Panicked(WriteOutOfRange);
      }
      var k := start;
      while k < start + UPDATES_PER_FRAME
        invariant start <= k <= start + UPDATES_PER_FRAME
        invariant forall i :: 0 <= i < buffer.Length ==>
          buffer[i] == if start <= i < k then defaultInstance else old(buffer[i])
      {
        buffer[k] := defaultInstance;
        k := k + 1;
      }
      assert buffer[..] == Overwrite(old(buffer[..]), start, DefaultWindow(blasReference));
      r := Done(());
    }
  }

  /**
   * On the buffer the task is made for (MAX_INSTANCE_COUNT slots) the write
   * never fails: the window lies inside the buffer and never reaches its
   * last slot.
   */
  lemma WindowInsideBuffer(start: nat)
    requires start < MAX_INSTANCE_COUNT - UPDATES_PER_FRAME
    ensures start + UPDATES_PER_FRAME <= MAX_INSTANCE_COUNT - 1
  {
  }
}
