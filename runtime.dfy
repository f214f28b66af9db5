/** `VRContext` as the source keeps it: two fixed arrays (device slots and
    device poses) written in place, the listener list, the lifecycle flags,
    and the notification log and effect trace that stand for the listener
    callbacks and the calls into OpenVR and GL. Each public method is proved
    to change the state exactly as the matching function of module Frames
    says; the properties of the lifecycle are proved about those functions. */
module Runtime {
  import opened Buttons
  import opened Devices
  import opened Frames

  class VRContext {
    const devices: array<Option<Device>>
    const devicePoses: array<DevicePose>
    var listeners: seq<ListenerId>
    var currentEye: Option<Eye>
    var renderingStarted: bool
    var initialDevicesReported: bool
    /** What the listeners have been called with, in call order. */
    var log: seq<Notification>
    /** The calls made into OpenVR, GL and the eye frame buffers, in order. */
    var trace: seq<Effect>

    predicate Sized()
    {
      devices.Length == MaxTrackedDeviceCount && devicePoses.Length == MaxTrackedDeviceCount
    }

    /** The abstract value of the context. */
    ghost function Model(): Context
      reads this, devices, devicePoses
      requires Sized()
    {
      Context(renderingStarted, currentEye, initialDevicesReported, devices[..], devicePoses[..],
              listeners, log, trace)
    }

    ghost predicate Valid()
      reads this, devices, devicePoses
    {
      Sized() && Frames.Valid(Model())
    }

    /** `VRContext(hasStencil)` once OpenVR is up: every slot empty, every pose
        fresh, no listener, no frame. */
    constructor ()
      ensures Valid() && Model() == Initial()
      ensures fresh(devices) && fresh(devicePoses)
    {
      devices := new Option<Device>[MaxTrackedDeviceCount](_ => None);
      devicePoses := new DevicePose[MaxTrackedDeviceCount](i requires 0 <= i => InitialPose(i));
      listeners, log, trace := [], [], [];
      currentEye, renderingStarted, initialDevicesReported := None, false, false;
      new;
      assert devices[..] == Initial().slots;
      assert devicePoses[..] == Initial().poses;
    }

    // -------------------------------------------------------------------
    // Listeners

    /** `addListener`. */
    method AddListener(listener: ListenerId)
      requires Valid()
      modifies this`listeners
      ensures Valid() && listeners == old(listeners) + [listener]
    {
      listeners := listeners + [listener];
    }

    /** `removeListener`: drops the first registration of `listener`. */
    method RemoveListener(listener: ListenerId)
      requires Valid()
      modifies this`listeners
      ensures Valid() && listeners == RemoveFirst(old(listeners), listener)
    {
      listeners := RemoveFirst(listeners, listener);
    }

    /** The `for (VRDeviceListener l: listeners)` loops: one callback per
        registration, in registration order. */
    method Notify(e: DeviceEvent)
      modifies this`log
      ensures log == old(log) + Broadcast(listeners, e)
    {
      for k := 0 to |listeners|
        invariant log == old(log) + Broadcast(listeners[..k], e)
      {
        assert Broadcast(listeners[..k + 1], e) == Broadcast(listeners[..k], e) + [Notification(listeners[k], e)];
        log := log + [Notification(listeners[k], e)];
      }
      assert listeners[..|listeners|] == listeners;
    }

    // -------------------------------------------------------------------
    // Queries

    /** `getDeviceByType`: the device in the lowest slot of that type, or null. */
    method GetDeviceByType(kind: DeviceType) returns (r: Option<Device>)
      requires Valid()
      ensures r == FindDevice(devices[..], OfType(kind))
    {
      for i := 0 to devices.Length
        invariant forall j :: 0 <= j < i ==> !Matches(devices[j], OfType(kind))
      {
        var d := devices[i];
        if d.Some? && d.value.kind == kind {
          return d;
        }
      }
      return None;
    }

    /** `getControllerByRole`: the controller in the lowest slot with that role, or null. */
    method GetControllerByRole(role: ControllerRole) returns (r: Option<Device>)
      requires Valid()
      ensures r == FindDevice(devices[..], ControllerInRole(role))
    {
      for i := 0 to devices.Length
        invariant forall j :: 0 <= j < i ==> !Matches(devices[j], ControllerInRole(role))
      {
        var d := devices[i];
        if d.Some? && d.value.kind == Controller && d.value.role == role {
          return d;
        }
      }
      return None;
    }

    /** `getDevicesByType`: every device of that type, in slot order. */
    method GetDevicesByType(kind: DeviceType) returns (r: seq<Device>)
      requires Valid()
      ensures r == AllMatching(devices[..], OfType(kind))
    {
      r := [];
      for i := 0 to devices.Length
        invariant r == AllMatching(devices[..i], OfType(kind))
      {
        assert devices[..i + 1][..i] == devices[..i];
        var d := devices[i];
        if d.Some? && d.value.kind == kind {
          r := r + [d.value];
        }
      }
      assert devices[..devices.Length] == devices[..];
    }

    /** `getDevices`: every connected device, in slot order. */
    method GetDevices() returns (r: seq<Device>)
      requires Valid()
      ensures r == AllMatching(devices[..], AnyDevice)
    {
      r := [];
      for i := 0 to devices.Length
        invariant r == AllMatching(devices[..i], AnyDevice)
      {
        assert devices[..i + 1][..i] == devices[..i];
        var d := devices[i];
        if d.Some? {
          r := r + [d.value];
        }
      }
      assert devices[..devices.Length] == devices[..];
    }

    /** `getDevicePose`. */
    method GetDevicePose(index: int) returns (r: Result)
      requires Valid()
      ensures r == Frames.GetDevicePose(Model(), index)
    {
      if index < 0 || index >= devicePoses.Length {
        return Failed(DeviceIndexOutOfBounds);
      }
      return Found(devicePoses[index]);
    }

    // -------------------------------------------------------------------
    // Device creation and the event loop

    /** `createDevice(index)`: the class and role switches. */
    method CreateDevice(t: Tracking, index: int)
      requires Sized() && 0 <= index <= devices.Length
      modifies devices
      ensures devices[..] == Devices.CreateDevice(old(devices[..]), t, index)
    {
      var kind: DeviceType;
      match ClassAt(t, index) {
        case ClassHMD => kind := HeadMountedDisplay;
        case ClassController => kind := Controller;
        case ClassTrackingReference => kind := BaseStation;
        case ClassOther => kind := Generic;
        case ClassUnhandled => return;
      }
      var role := Unknown;
      if kind == Controller {
        match RoleAt(t, index) {
          case RoleLeftHand => role := LeftHand;
          case RoleRightHand => role := RightHand;
          case RoleUnhandled =>
        }
      }
      devices[index] := Some(Device(index, kind, role, 0));
    }

    /** One iteration of the event loop of `updateDevices`. `faulted` is the
        `ArrayIndexOutOfBoundsException` of reading `devices[length]`, which
        the index filter lets through. */
    method ProcessEvent(t: Tracking, e: RawEvent) returns (faulted: bool)
      requires Sized()
      modifies devices, this`log
      ensures var s := HandleEvent(Registry(old(devices[..]), old(log)), listeners, t, e);
        faulted == s.Fault? &&
        (s.Continue? ==> Registry(devices[..], log) == s.reg) &&
        (s.Fault? ==> devices[..] == old(devices[..]) && log == old(log))
    {
      var index := e.trackedDeviceIndex;
      if index < 0 || index > devices.Length {
        return false;
      }
      match e.eventType {
        case TrackedDeviceActivated =>
          CreateDevice(t, index);
          if index == devices.Length {
            // the first listener call reads devices[length]
            return listeners != [];
          }
          Notify(Connected(devices[index]));
        case TrackedDeviceDeactivated =>
          if index == devices.Length {
            return true;
          }
          if devices[index].None? {
            return false;
          }
          Notify(Disconnected(devices[index].value));
          devices[index] := None;
        case ButtonPress =>
          if index == devices.Length {
            return true;
          }
          if devices[index].None? {
            return false;
          }
          var d := devices[index].value;
          var updated := d.(buttons := SetButton(d.buttons, e.button, true));
          devices[index] := Some(updated);
          Notify(ButtonPressed(updated, e.button));
        case ButtonUnpress =>
          if index == devices.Length {
            return true;
          }
          if devices[index].None? {
            return false;
          }
          var d := devices[index].value;
          var updated := d.(buttons := SetButton(d.buttons, e.button, false));
          devices[index] := Some(updated);
          Notify(ButtonReleased(updated, e.button));
        case OtherEvent =>
      }
      return false;
    }

    /** `updateDevices`: copy every raw pose into its slot, then drain the
        events until they run out or one faults. */
    method UpdateDevices(t: Tracking, raw: seq<RawPose>, events: seq<RawEvent>) returns (faulted: bool)
      requires Sized() && |raw| == MaxTrackedDeviceCount
      modifies devices, devicePoses, this`log
      ensures forall i :: 0 <= i < MaxTrackedDeviceCount ==> devicePoses[i] == CopyPose(i, raw[i])
      ensures var d := Drain(Registry(old(devices[..]), old(log)), listeners, t, events);
        Registry(devices[..], log) == d.reg && faulted == d.faulted
    {
      for device := 0 to devicePoses.Length
        invariant forall i :: 0 <= i < device ==> devicePoses[i] == CopyPose(i, raw[i])
        invariant devices[..] == old(devices[..]) && log == old(log)
      {
        devicePoses[device] := CopyPose(device, raw[device]);
      }
      ghost var start := Registry(devices[..], log);
      var i := 0;
      while i < |events|
        invariant 0 <= i <= |events|
        invariant forall k :: 0 <= k < MaxTrackedDeviceCount ==> devicePoses[k] == CopyPose(k, raw[k])
        invariant Drain(start, listeners, t, events[..i]) == Drained(Registry(devices[..], log), false)
      {
        assert events[..i + 1][..i] == events[..i];
        faulted := ProcessEvent(t, events[i]);
        if faulted {
          DrainStopsAtFault(start, listeners, t, events, i + 1);
          return;
        }
        i := i + 1;
      }
      assert events[..i] == events;
      faulted := false;
    }

    /** Once the drain of a prefix has faulted, the drain of the whole
        sequence is that result. */
    static lemma DrainStopsAtFault(start: Registry, listeners: seq<ListenerId>, t: Tracking, events: seq<RawEvent>, n: nat)
      requires n <= |events| && Drain(start, listeners, t, events[..n]).faulted
      ensures Drain(start, listeners, t, events) == Drain(start, listeners, t, events[..n])
      decreases |events| - n
    {
      if n < |events| {
        assert events[..n + 1][..n] == events[..n];
        DrainStopsAtFault(start, listeners, t, events, n + 1);
      } else {
        assert events[..n] == events;
      }
    }

    // -------------------------------------------------------------------
    // The lifecycle

    /** The enumeration loop of the first `begin()`. */
    method ReportInitialDevices(t: Tracking)
      requires Sized()
      modifies devices, this`log
      ensures Registry(devices[..], log) ==
        Enumerate(Registry(old(devices[..]), old(log)), listeners, t, MaxTrackedDeviceCount)
    {
      for index := 0 to devices.Length
        invariant Registry(devices[..], log) ==
          Enumerate(Registry(old(devices[..]), old(log)), listeners, t, index)
      {
        if IsConnected(t, index) {
          CreateDevice(t, index);
          Notify(Connected(devices[index]));
        }
      }
    }

    /** `begin()`. */
    method Begin(t: Tracking, raw: seq<RawPose>, events: seq<RawEvent>) returns (r: Outcome)
      requires Valid() && |raw| == MaxTrackedDeviceCount
      modifies this, devices, devicePoses
      ensures Valid()
      ensures Model() == Frames.Begin(old(Model()), t, raw, events).next
      ensures r == Frames.Begin(old(Model()), t, raw, events).outcome
    {
      if renderingStarted {
        return Fail(BeginWhileFrameOpen);
      }
      renderingStarted := true;
      trace := trace + [WaitGetPoses];
      if !initialDevicesReported {
        ReportInitialDevices(t);
        initialDevicesReported := true;
      }
      var faulted := UpdateDevices(t, raw, events);
      assert devicePoses[..] == Frames.Begin(old(Model()), t, raw, events).next.poses;
      if faulted {
        return Fail(EventIndexOutOfBounds);
      }
      trace := trace + [UpdateCamera(Left), UpdateCamera(Right)];
      return Done;
    }

    /** `beginEye(eye)`. */
    method BeginEye(eye: Eye) returns (r: Outcome)
      requires Valid()
      modifies this`currentEye, this`trace
      ensures Valid()
      ensures Model() == Frames.BeginEye(old(Model()), eye).next
      ensures r == Frames.BeginEye(old(Model()), eye).outcome
    {
      if !renderingStarted {
        return Fail(BeginEyeWithoutBegin);
      }
      if currentEye.Some? {
        return Fail(BeginEyeWhileEyeOpen);
      }
      currentEye := Some(eye);
      trace := trace + [BufferBegin(eye)];
      return Done;
    }

    /** `endEye()`. */
    method EndEye() returns (r: Outcome)
      requires Valid()
      modifies this`currentEye, this`trace
      ensures Valid()
      ensures Model() == Frames.EndEye(old(Model())).next
      ensures r == Frames.EndEye(old(Model())).outcome
    {
      if currentEye.None? {
        return Fail(EndEyeWithoutBeginEye);
      }
      trace := trace + [BufferEnd(currentEye.value)];
      currentEye := None;
      return Done;
    }

    /** `end()`. */
    method End() returns (r: Outcome)
      requires Valid()
      modifies this`renderingStarted, this`trace
      ensures Valid()
      ensures Model() == Frames.End(old(Model())).next
      ensures r == Frames.End(old(Model())).outcome
    {
      if !renderingStarted {
        return Fail(EndWithoutBegin);
      }
      renderingStarted := false;
      trace := trace + [Submit(Left), Submit(Right), GlFinish, PostPresentHandoff];
      return Done;
    }
  }
}
