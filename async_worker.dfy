/**
 * The writer side of the double-buffered TLAS: the worker thread of
 * `run_worker`. Each message it receives starts one cycle: wait until the
 * renderer has moved past the last frame seen, refit the copy that is not
 * being shown, wait for the compute queue to go idle, then publish that copy
 * by flipping the shared index and raising the show flag.
 *
 * The thread and the renderer are modelled as steps on one shared state
 * (the render task's flags and copies) that a scheduler may interleave in
 * any order; `Valid` holds between any two steps.
 */
module AsyncWorker {
  import opened Wrappers
  import opened Vectors
  import opened Instances
  import opened Render
  import UpdateAs

  /** Where the worker is within a cycle; `back` is the copy the cycle refits. */
  datatype Phase = Idle | Updating(back: bool) | Updated(back: bool)

  /** What `channel.recv()` yields, together with the inputs of the cycle a message starts. */
  datatype Received =
    | Message(frames: seq<nat>, start: nat, samples: seq<Sample>, frameAfter: nat)
    | Disconnected

  class Worker {
    /** The render task whose index flag, show flag, copies and instance buffer the worker shares. */
    const render: RayTracingRenderTask
    const task: UpdateAs.UpdateAccelerationStructureTask
    var lastFrame: nat
    var phase: Phase
    /** Cycles published so far. */
    ghost var cycles: nat

    /**
     * The handoff invariant: the copy being refitted is never the one the
     * renderer binds, and every published cycle has flipped the index once,
     * starting from copy 0.
     */
    ghost predicate Valid()
      reads this, render
    {
      && render.Valid()
      && task.maxInstanceCount == render.maxInstanceCount
      && (!phase.Idle? ==> phase.back != render.currentAsIndex)
      && render.currentAsIndex == (cycles % 2 == 1)
    }

    /** The inputs of one cycle satisfy the update task's draw ranges. */
    predicate ValidInputs(start: nat, samples: seq<Sample>) {
      && (task.maxInstanceCount > UpdateAs.UPDATES_PER_FRAME ==> start < task.maxInstanceCount - UpdateAs.UPDATES_PER_FRAME)
      && |samples| == UpdateAs.UPDATES_PER_FRAME
      && forall i :: 0 <= i < |samples| ==> UpdateAs.ValidSample(samples[i])
    }

    /** The thread starts with `last_frame` 0, next to a freshly built render task. */
    constructor (render: RayTracingRenderTask, task: UpdateAs.UpdateAccelerationStructureTask)
      requires render.Valid() && !render.currentAsIndex
      requires task.maxInstanceCount == render.maxInstanceCount
      ensures this.render == render && this.task == task
      ensures lastFrame == 0 && phase == Idle && cycles == 0
      ensures Valid()
    {
      this.render := render;
      this.task := task;
      lastFrame := 0;
      phase := Idle;
      cycles := 0;
    }

    /**
     * The sleep-poll loop: reads the graphics frame counter (successive
     * readings in `frames`) until it differs from `last_frame`. Returns the
     * first differing reading, or None while every reading still equals it.
     */
    method WaitForNewFrame(frames: seq<nat>) returns (released: Option<nat>)
      ensures released.None? <==> forall k :: 0 <= k < |frames| ==> frames[k] == lastFrame
      ensures released.Some? ==>
        exists k :: 0 <= k < |frames| && frames[k] == released.value && released.value != lastFrame &&
          forall j :: 0 <= j < k ==> frames[j] == lastFrame
    {
      var k := 0;
      while k < |frames| && frames[k] == lastFrame
        invariant 0 <= k <= |frames|
        invariant forall j :: 0 <= j < k ==> frames[j] == lastFrame
      {
        k := k + 1;
      }
      if k == |frames| {
        return None;
      }
      released := Some(frames[k]);
    }

    /**
     * After the frame gate: waits for frame `last_frame` (returned as
     * `waited`) and picks the back copy, the negation of the index as
     * read now.
     */
    method BeginUpdate() returns (back: bool, waited: nat)
      requires Valid() && phase == Idle
      modifies this`phase
      ensures back == !render.currentAsIndex && phase == Updating(back)
      ensures waited == lastFrame
      ensures Valid()
    {
      waited := lastFrame;
      back := !render.currentAsIndex;
      phase := Updating(back);
    }

    /**
     * Runs the update task against the back copy: the instance window is
     * rewritten and the back copy refitted from the buffer. The shown copy
     * is neither the build's destination nor changed.
     */
    method UpdateBack(start: nat, samples: seq<Sample>) returns (r: Fallible<UpdateAs.BuildInfo>)
      requires Valid() && phase.Updating?
      requires ValidInputs(start, samples)
      modifies render.instanceBuffer, render`tlas, this`phase
      ensures Valid()
      ensures render.tlas[Index(render.currentAsIndex)] == old(render.tlas[Index(render.currentAsIndex)])
      ensures r.Panicked? <==> task.maxInstanceCount <= UpdateAs.UPDATES_PER_FRAME
      ensures r.Panicked? ==>
        && phase == old(phase) && render.tlas == old(render.tlas)
        && render.instanceBuffer[..] == old(render.instanceBuffer[..])
      ensures r.Done? ==>
        && phase == Updated(old(phase).back)
        && r.value.destination == render.accelerationStructures[Index(old(phase).back)]
        && r.value.destination != render.accelerationStructures[Index(render.currentAsIndex)]
        && start + UpdateAs.UPDATES_PER_FRAME <= render.instanceBuffer.Length
        && render.instanceBuffer[..] ==
             Overwrite(old(render.instanceBuffer[..]), start, SampledInstances(task.blasReference, samples))
        && r.value.primitiveCount == task.maxInstanceCount % UpdateAs.U32_MODULUS <= render.instanceBuffer.Length
        && render.tlas == old(render.tlas)[Index(old(phase).back) := render.instanceBuffer[..r.value.primitiveCount]]
    {
      var back := phase.back;
      var handle := render.accelerationStructures[Index(back)];
      r := task.Execute(render.instanceBuffer, handle, start, samples);
      if r.Done? {
        render.tlas := render.tlas[Index(back) := render.instanceBuffer[..r.value.primitiveCount]];
        phase := Updated(back);
      }
    }

    /**
     * Once the compute queue is idle: records the frame counter read now,
     * publishes the refitted copy and raises the show flag.
     */
    method Publish(frameNow: nat)
      requires Valid() && phase.Updated?
      modifies this`lastFrame, this`phase, this`cycles, render`currentAsIndex, render`showCurrentIndex
      ensures render.currentAsIndex == old(phase).back && render.currentAsIndex == !old(render.currentAsIndex)
      ensures render.showCurrentIndex
      ensures lastFrame == frameNow && phase == Idle && cycles == old(cycles) + 1
      ensures Valid()
    {
      lastFrame := frameNow;
      render.currentAsIndex := phase.back;
      render.showCurrentIndex := true;
      phase := Idle;
      cycles := cycles + 1;
    }

    /**
     * A frame of the renderer taken between any two worker steps: it binds
     * the published copy, never the one being refitted, and keeps the
     * handoff invariant.
     */
    method RenderFrame() returns (bound: nat)
      requires Valid()
      modifies render`showCurrentIndex
      ensures Valid()
      ensures bound == render.accelerationStructureIds[Index(render.currentAsIndex)]
      ensures !phase.Idle? ==> bound != render.accelerationStructureIds[Index(phase.back)]
      ensures !render.showCurrentIndex
    {
      var front;
      front, bound := render.Execute();
    }

    /**
     * One pass of the loop body. Done(false): every frame reading still
     * equals `last_frame`, so the cycle has not started and nothing changed.
     * Done(true): the index flipped, the show flag is raised, `last_frame`
     * is the counter read after the update, and the published copy holds the
     * refitted instances.
     */
    method Cycle(frames: seq<nat>, start: nat, samples: seq<Sample>, frameAfter: nat) returns (r: Fallible<bool>)
      requires Valid() && phase == Idle
      requires ValidInputs(start, samples)
      modifies this`lastFrame, this`phase, this`cycles
      modifies render`currentAsIndex, render`showCurrentIndex, render`tlas, render.instanceBuffer
      ensures Valid()
      ensures r == Done(false) <==> forall k :: 0 <= k < |frames| ==> frames[k] == old(lastFrame)
      ensures r.Panicked? <==> r != Done(false) && task.maxInstanceCount <= UpdateAs.UPDATES_PER_FRAME
      ensures r.Panicked? ==>
        && render.currentAsIndex == old(render.currentAsIndex) && render.tlas == old(render.tlas)
        && render.instanceBuffer[..] == old(render.instanceBuffer[..])
      ensures r.Done? ==> phase == Idle
      ensures r == Done(false) ==>
        && lastFrame == old(lastFrame) && cycles == old(cycles)
        && render.currentAsIndex == old(render.currentAsIndex) && render.tlas == old(render.tlas)
        && render.showCurrentIndex == old(render.showCurrentIndex)
        && render.instanceBuffer[..] == old(render.instanceBuffer[..])
      ensures r == Done(true) ==>
        && render.currentAsIndex == !old(render.currentAsIndex)
        && render.showCurrentIndex
        && lastFrame == frameAfter
        && cycles == old(cycles) + 1
        && start + UpdateAs.UPDATES_PER_FRAME <= render.instanceBuffer.Length
        && render.instanceBuffer[..] ==
             Overwrite(old(render.instanceBuffer[..]), start, SampledInstances(task.blasReference, samples))
        && render.tlas[Index(!render.currentAsIndex)] == old(render.tlas[Index(render.currentAsIndex)])
        && render.tlas[Index(render.currentAsIndex)] ==
             render.instanceBuffer[..task.maxInstanceCount % UpdateAs.U32_MODULUS]
    {
      var released := WaitForNewFrame(frames);
      if released.None? {
        return Done(false);
      }
      var back, waited := BeginUpdate();
      var built := UpdateBack(start, samples);
      if built.Panicked? {
        return Panicked(built.reason);
      }
      Publish(frameAfter);
      r := Done(true);
    }

    /**
     * `while let Ok(()) = channel.recv()`: one cycle per message, stopping
     * at the first disconnect (or where the inbox, or a frame gate, leaves
     * the thread waiting). Returns the number of cycles run; the index then
     * equals its old value flipped once per cycle.
     */
    method Run(inbox: seq<Received>) returns (r: Fallible<nat>)
      requires Valid() && phase == Idle
      requires forall k :: 0 <= k < |inbox| && inbox[k].Message? ==> ValidInputs(inbox[k].start, inbox[k].samples)
      modifies this`lastFrame, this`phase, this`cycles
      modifies render`currentAsIndex, render`showCurrentIndex, render`tlas, render.instanceBuffer
      ensures Valid()
      ensures task.maxInstanceCount > UpdateAs.UPDATES_PER_FRAME ==> r.Done?
      ensures r.Done? ==>
        && phase == Idle
        && r.value <= |inbox|
        && (forall k :: 0 <= k < r.value ==> inbox[k].Message?)
        && cycles == old(cycles) + r.value
        && render.currentAsIndex == (old(render.currentAsIndex) != (r.value % 2 == 1))
        && lastFrame == (if r.value == 0 then old(lastFrame) else inbox[r.value - 1].frameAfter)
        && (|| r.value == |inbox|
            || inbox[r.value].Disconnected?
            || forall k :: 0 <= k < |inbox[r.value].frames| ==> inbox[r.value].frames[k] == lastFrame)
    {
      var n := 0;
      while n < |inbox| && inbox[n].Message?
        invariant 0 <= n <= |inbox|
        invariant Valid() && phase == Idle
        invariant forall k :: 0 <= k < n ==> inbox[k].Message?
        invariant cycles == old(cycles) + n
        invariant render.currentAsIndex == (old(render.currentAsIndex) != (n % 2 == 1))
        invariant lastFrame == if n == 0 then old(lastFrame) else inbox[n - 1].frameAfter
      {
        var message := inbox[n];
        var ran := Cycle(message.frames, message.start, message.samples, message.frameAfter);
        if ran.Panicked? {
          return Panicked(ran.reason);
        }
        if !ran.value {
          return Done(n);
        }
        n := n + 1;
      }
      r := Done(n);
    }
  }
}
