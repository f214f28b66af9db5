/** The whole observable state of a `VRContext` as a value, and what each
    public operation does to it. These functions are the specification the
    class in module Runtime is proved against.

    Outward calls (OpenVR's `WaitGetPoses`, `Submit` and `PostPresentHandoff`,
    `glFinish`, the eye frame buffers, the camera updates) are recorded in an
    effect trace, in the order the source makes them. */
module Frames {
  import opened Devices

  /** `VRContext.Eye`. */
  datatype Eye = Left | Right

  datatype Effect =
    | WaitGetPoses
    | UpdateCamera(eye: Eye)
    | BufferBegin(eye: Eye)
    | BufferEnd(eye: Eye)
    | Submit(eye: Eye)
    | GlFinish
    | PostPresentHandoff

  /** The exceptions the operations throw. The first five are the
      `GdxRuntimeException`s of the lifecycle guards, one per message. */
  datatype Failure =
    | BeginWhileFrameOpen      // "Last begin() call not completed ..."
    | BeginEyeWithoutBegin     // "Call begin() before calling beginEye()"
    | BeginEyeWhileEyeOpen     // "Last beginEye() call not completed ..."
    | EndEyeWithoutBeginEye    // "Call beginEye() before endEye()"
    | EndWithoutBegin          // "Call begin() before end()"
    | EventIndexOutOfBounds    // devices[length] read in the event loop
    | DeviceIndexOutOfBounds   // getDevicePose outside [0, length)

  datatype Outcome = Done | Fail(failure: Failure)

  datatype Context = Context(
    renderingStarted: bool,
    currentEye: Option<Eye>,
    initialDevicesReported: bool,
    slots: Slots,
    poses: Poses,
    listeners: seq<ListenerId>,
    log: seq<Notification>,
    trace: seq<Effect>)

  /** What every reachable context satisfies. */
  predicate Valid(c: Context)
  {
    Bound(c.slots) && Indexed(c.poses)
  }

  datatype Transition = Transition(next: Context, outcome: Outcome)

  /** The state of a freshly constructed context. */
  function Initial(): (c: Context)
    ensures Valid(c) && !c.renderingStarted && c.currentEye.None? && !c.initialDevicesReported
    ensures forall i :: 0 <= i < MaxTrackedDeviceCount ==> c.slots[i].None?
  {
    Context(false, None, false, seq(MaxTrackedDeviceCount, _ => None),
            seq(MaxTrackedDeviceCount, i requires 0 <= i => InitialPose(i)), [], [], [])
  }

  // ---------------------------------------------------------------------
  // The frame phases, read off the two lifecycle fields

  /** The guards of `begin`, `beginEye`, `endEye` and `end` are written to
      move between `Idle`, `FrameOpen` and `EyeOpen`. `EyeWithoutFrame` is
      reached only by `end()` with an eye open, which the guard of `end()`
      does not refuse. */
  datatype Phase = Idle | FrameOpen | EyeOpen(eye: Eye) | EyeWithoutFrame(eye: Eye)

  function PhaseOf(c: Context): Phase
  {
    match (c.renderingStarted, c.currentEye)
    case (false, None) => Idle
    case (true, None) => FrameOpen
    case (true, Some(e)) => EyeOpen(e)
    case (false, Some(e)) => EyeWithoutFrame(e)
  }

  /** Everything but the two lifecycle fields and the trace is the same. */
  predicate SameDevices(c: Context, d: Context)
  {
    d.initialDevicesReported == c.initialDevicesReported && d.slots == c.slots &&
    d.poses == c.poses && d.listeners == c.listeners && d.log == c.log
  }

  // ---------------------------------------------------------------------
  // The lifecycle

  /** The registry the event loop of `begin()` starts from: the one after the
      enumeration on the first call, the current one afterwards. */
  function Announced(c: Context, t: Tracking): Registry
  {
    var reg := Registry(c.slots, c.log);
    if c.initialDevicesReported then reg else Enumerate(reg, c.listeners, t, MaxTrackedDeviceCount)
  }

  /** `begin()`. */
  function Begin(c: Context, t: Tracking, raw: seq<RawPose>, events: seq<RawEvent>): (r: Transition)
    requires Valid(c) && |raw| == MaxTrackedDeviceCount
    ensures r.outcome == Fail(BeginWhileFrameOpen) <==> c.renderingStarted
    ensures c.renderingStarted ==> r.next == c
    ensures !c.renderingStarted ==>
      Valid(r.next) && r.next.renderingStarted && r.next.initialDevicesReported &&
      r.next.currentEye == c.currentEye && r.next.listeners == c.listeners &&
      c.log <= r.next.log &&
      (forall i :: 0 <= i < MaxTrackedDeviceCount ==> r.next.poses[i] == CopyPose(i, raw[i])) &&
      (r.outcome.Done? || r.outcome == Fail(EventIndexOutOfBounds)) &&
      r.next.trace == c.trace + [WaitGetPoses] +
        (if r.outcome.Done? then [UpdateCamera(Left), UpdateCamera(Right)] else [])
    ensures !c.renderingStarted ==>
      var d := Drain(Announced(c, t), c.listeners, t, events);
      r.next.slots == d.reg.slots && r.next.log == d.reg.log &&
      (r.outcome == Fail(EventIndexOutOfBounds) <==> d.faulted)
  {
    if c.renderingStarted then Transition(c, Fail(BeginWhileFrameOpen))
    else
      var drained := Drain(Announced(c, t), c.listeners, t, events);
      var poses: Poses := seq(MaxTrackedDeviceCount, i requires 0 <= i < MaxTrackedDeviceCount => CopyPose(i, raw[i]));
      var started := c.(renderingStarted := true, initialDevicesReported := true,
                       slots := drained.reg.slots, poses := poses, log := drained.reg.log,
                       trace := c.trace + [WaitGetPoses]);
      if drained.faulted then Transition(started, Fail(EventIndexOutOfBounds))
      else Transition(started.(trace := started.trace + [UpdateCamera(Left), UpdateCamera(Right)]), Done)
  }

  /** `beginEye(eye)`. */
  function BeginEye(c: Context, eye: Eye): (r: Transition)
    ensures r.outcome.Done? <==> PhaseOf(c) == FrameOpen
    ensures r.outcome.Fail? ==> r.next == c
    ensures !c.renderingStarted ==> r.outcome == Fail(BeginEyeWithoutBegin)
    ensures c.renderingStarted && c.currentEye.Some? ==> r.outcome == Fail(BeginEyeWhileEyeOpen)
    ensures r.outcome.Done? ==>
      PhaseOf(r.next) == EyeOpen(eye) && SameDevices(c, r.next) && r.next.trace == c.trace + [BufferBegin(eye)]
  {
    if !c.renderingStarted then Transition(c, Fail(BeginEyeWithoutBegin))
    else if c.currentEye.Some? then Transition(c, Fail(BeginEyeWhileEyeOpen))
    else Transition(c.(currentEye := Some(eye), trace := c.trace + [BufferBegin(eye)]), Done)
  }

  /** `endEye()`: closes whichever eye is open; it does not look at
      `renderingStarted`. */
  function EndEye(c: Context): (r: Transition)
    ensures r.outcome.Done? <==> c.currentEye.Some?
    ensures r.outcome.Fail? ==> r.next == c && r.outcome == Fail(EndEyeWithoutBeginEye)
    ensures r.outcome.Done? ==>
      r.next.currentEye.None? && r.next.renderingStarted == c.renderingStarted &&
      SameDevices(c, r.next) && r.next.trace == c.trace + [BufferEnd(c.currentEye.value)]
  {
    match c.currentEye
    case None => Transition(c, Fail(EndEyeWithoutBeginEye))
    case Some(eye) => Transition(c.(currentEye := None, trace := c.trace + [BufferEnd(eye)]), Done)
  }

  /** `end()`: guarded by `renderingStarted` only, so an open eye stays
      recorded. Submits Left, then Right, waits for the GPU, then hands off. */
  function End(c: Context): (r: Transition)
    ensures r.outcome.Done? <==> c.renderingStarted
    ensures r.outcome.Fail? ==> r.next == c && r.outcome == Fail(EndWithoutBegin)
    ensures r.outcome.Done? ==>
      !r.next.renderingStarted && r.next.currentEye == c.currentEye && SameDevices(c, r.next) &&
      r.next.trace == c.trace + [Submit(Left), Submit(Right), GlFinish, PostPresentHandoff]
  {
    if !c.renderingStarted then Transition(c, Fail(EndWithoutBegin))
    else Transition(c.(renderingStarted := false,
                       trace := c.trace + [Submit(Left), Submit(Right), GlFinish, PostPresentHandoff]), Done)
  }

  /** `getDevicePose(index)`. */
  function GetDevicePose(c: Context, index: int): (r: Result)
    ensures r.Failed? <==> index < 0 || index >= MaxTrackedDeviceCount
    ensures r.Failed? ==> r.failure == DeviceIndexOutOfBounds
    ensures r.Found? ==> r.pose == c.poses[index]
    ensures r.Found? && Valid(c) ==> r.pose.index == index
  {
    if index < 0 || index >= MaxTrackedDeviceCount then Failed(DeviceIndexOutOfBounds)
    else Found(c.poses[index])
  }

  datatype Result = Found(pose: DevicePose) | Failed(failure: Failure)

  // ---------------------------------------------------------------------
  // Properties of the lifecycle

  /** `EyeWithoutFrame` is entered only by `end()` with an eye open: from any
      other phase, no call leads there. */
  lemma EyeWithoutFrameOnlyViaEnd(c: Context, t: Tracking, raw: seq<RawPose>, events: seq<RawEvent>, eye: Eye)
    requires Valid(c) && |raw| == MaxTrackedDeviceCount && !PhaseOf(c).EyeWithoutFrame?
    ensures !PhaseOf(Begin(c, t, raw, events).next).EyeWithoutFrame?
    ensures !PhaseOf(BeginEye(c, eye).next).EyeWithoutFrame?
    ensures !PhaseOf(EndEye(c).next).EyeWithoutFrame?
    ensures PhaseOf(End(c).next).EyeWithoutFrame? <==> PhaseOf(c).EyeOpen?
  {
  }

  /** `end()` with an eye still open succeeds and keeps the eye recorded; the
      next `begin()` then opens a frame in which that eye is already open, so
      `beginEye` is refused until `endEye()` is called. */
  lemma EndWithEyeOpenLeavesEyeOpen(c: Context, e: Eye, t: Tracking, raw: seq<RawPose>, events: seq<RawEvent>, other: Eye)
    requires Valid(c) && |raw| == MaxTrackedDeviceCount && PhaseOf(c) == EyeOpen(e)
    ensures var ended := End(c);
            ended.outcome == Done && PhaseOf(ended.next) == EyeWithoutFrame(e) &&
            var begun := Begin(ended.next, t, raw, events);
            begun.outcome != Fail(BeginWhileFrameOpen) && PhaseOf(begun.next) == EyeOpen(e) &&
            BeginEye(begun.next, other).outcome == Fail(BeginEyeWhileEyeOpen) &&
            EndEye(begun.next).outcome == Done
  {
    var ended := End(c);
    assert Valid(ended.next);
  }

  /** Only the first `begin()` enumerates: every connected slot whose class is
      handled gets its new device, and each listener is told about every
      connected slot once. */
  lemma FirstBeginReportsConnectedDevices(c: Context, t: Tracking, raw: seq<RawPose>)
    requires Valid(c) && |raw| == MaxTrackedDeviceCount
    requires !c.renderingStarted && !c.initialDevicesReported
    ensures var b := Begin(c, t, raw, []);
            b.outcome == Done && b.next.initialDevicesReported &&
            (forall i :: 0 <= i < MaxTrackedDeviceCount ==>
               b.next.slots[i] == if IsConnected(t, i) && NewDevice(t, i).Some? then NewDevice(t, i) else c.slots[i]) &&
            |b.next.log| == |c.log| + |c.listeners| * ConnectedCount(t, MaxTrackedDeviceCount)
  {
    var reg := Registry(c.slots, c.log);
    var announced := Enumerate(reg, c.listeners, t, MaxTrackedDeviceCount);
    assert Drain(announced, c.listeners, t, []) == Drained(announced, false);
    forall i | 0 <= i < MaxTrackedDeviceCount
      ensures announced.slots[i] == if IsConnected(t, i) && NewDevice(t, i).Some? then NewDevice(t, i) else c.slots[i]
    {
      EnumerateSlots(reg, c.listeners, t, MaxTrackedDeviceCount, i);
    }
    EnumerateNotificationCount(reg, c.listeners, t, MaxTrackedDeviceCount);
  }

  /** Every later `begin()` skips the enumeration: with no pending events the
      devices and the notifications stay as they were. */
  lemma LaterBeginDoesNotEnumerate(c: Context, t: Tracking, raw: seq<RawPose>)
    requires Valid(c) && |raw| == MaxTrackedDeviceCount
    requires !c.renderingStarted && c.initialDevicesReported
    ensures var b := Begin(c, t, raw, []);
            b.outcome == Done && b.next.slots == c.slots && b.next.log == c.log
  {
  }

  /** Every later `begin()` changes the devices only through its events: the
      slots and notifications are what draining them from the current registry
      gives, and it fails exactly when that drain faults. */
  lemma LaterBeginOnlyDrains(c: Context, t: Tracking, raw: seq<RawPose>, events: seq<RawEvent>)
    requires Valid(c) && |raw| == MaxTrackedDeviceCount
    requires !c.renderingStarted && c.initialDevicesReported
    ensures var b := Begin(c, t, raw, events);
            var d := Drain(Registry(c.slots, c.log), c.listeners, t, events);
            b.next.slots == d.reg.slots && b.next.log == d.reg.log &&
            (b.outcome == Done <==> !d.faulted)
  {
  }

  /** The poses `begin()` stores do not depend on what was stored before, nor
      on the validity flag: an invalid raw pose overwrites the last valid one. */
  lemma PosesComeOnlyFromThisFrame(c: Context, d: Context, t: Tracking, raw: seq<RawPose>, events: seq<RawEvent>)
    requires Valid(c) && Valid(d) && |raw| == MaxTrackedDeviceCount
    requires !c.renderingStarted && !d.renderingStarted
    ensures Begin(c, t, raw, events).next.poses == Begin(d, t, raw, events).next.poses
  {
    var p, q := Begin(c, t, raw, events).next.poses, Begin(d, t, raw, events).next.poses;
    assert forall i :: 0 <= i < MaxTrackedDeviceCount ==> p[i] == q[i];
  }

  /** After any successful `begin()`, the pose of slot i is readable and is
      the conversion of this frame's raw pose i. */
  lemma PoseLookupAfterBegin(c: Context, t: Tracking, raw: seq<RawPose>, events: seq<RawEvent>, i: int)
    requires Valid(c) && |raw| == MaxTrackedDeviceCount && !c.renderingStarted
    requires 0 <= i < MaxTrackedDeviceCount
    ensures GetDevicePose(Begin(c, t, raw, events).next, i) == Found(CopyPose(i, raw[i]))
  {
  }
}
