/** The device registry of `VRContext`: the fixed array of device slots, the
    poses stored per slot, the events OpenVR reports and how each one changes
    the slots and notifies the registered listeners. Everything here is a
    value; the class in module Runtime keeps these values in arrays and
    fields and is proved to update them as the functions below say.

    OpenVR itself is not modelled. What it answers is an input: a `Tracking`
    snapshot (connected flag, device class and controller role per slot), a
    finite sequence of raw events, and the raw poses. Listener callbacks are
    represented only by the notifications they receive, appended to a log. */
module Devices {
  import opened Matrices
  import opened Buttons

  /** `VR.k_unMaxTrackedDeviceCount`: the number of device slots. */
  const MaxTrackedDeviceCount: nat := 16

  datatype Option<+T> = None | Some(value: T)

  datatype DeviceType = HeadMountedDisplay | Controller | BaseStation | Generic

  datatype ControllerRole = Unknown | LeftHand | RightHand

  /** A `VRDevice`: the slot (its pose index), its type and role, and the
      64-bit button mask. */
  datatype Device = Device(index: nat, kind: DeviceType, role: ControllerRole, buttons: bv64)

  /** `VRContext.devices`: one entry per slot, `None` standing for `null`. */
  type Slots = s: seq<Option<Device>> | |s| == MaxTrackedDeviceCount
    witness seq(MaxTrackedDeviceCount, _ => None)

  /** Every device sits in the slot its pose index names. */
  predicate Bound(slots: seq<Option<Device>>)
  {
    forall i :: 0 <= i < |slots| && slots[i].Some? ==> slots[i].value.index == i
  }

  // ---------------------------------------------------------------------
  // What OpenVR reports

  /** `ETrackedDeviceClass`, reduced to the four classes `createDevice`
      distinguishes; every other value (including the invalid class) is
      `ClassUnhandled`. */
  datatype DeviceClass = ClassHMD | ClassController | ClassTrackingReference | ClassOther | ClassUnhandled

  /** `ETrackedControllerRole`, reduced to the two roles `createDevice` maps. */
  datatype RoleCode = RoleLeftHand | RoleRightHand | RoleUnhandled

  /** What `IsTrackedDeviceConnected`, `GetTrackedDeviceClass` and
      `GetControllerRoleForTrackedDeviceIndex` answer, per slot. */
  datatype Tracking = Tracking(connected: seq<bool>, classes: seq<DeviceClass>, roles: seq<RoleCode>)

  predicate IsConnected(t: Tracking, index: int)
  {
    0 <= index < MaxTrackedDeviceCount && index < |t.connected| && t.connected[index]
  }

  /** An index OpenVR does not track has the invalid class. */
  function ClassAt(t: Tracking, index: int): DeviceClass
  {
    if 0 <= index < MaxTrackedDeviceCount && index < |t.classes| then t.classes[index]
    else ClassUnhandled
  }

  function RoleAt(t: Tracking, index: int): RoleCode
  {
    if 0 <= index < MaxTrackedDeviceCount && index < |t.roles| then t.roles[index]
    else RoleUnhandled
  }

  datatype EventType =
    | TrackedDeviceActivated
    | TrackedDeviceDeactivated
    | ButtonPress
    | ButtonUnpress
    | OtherEvent

  /** A `VREvent_t`: its type, `trackedDeviceIndex` and, for button events,
      `data.controller.button`. */
  datatype RawEvent = RawEvent(eventType: EventType, trackedDeviceIndex: int, button: int)

  // ---------------------------------------------------------------------
  // Poses

  datatype Vec3 = Vec3(x: real, y: real, z: real)

  /** A `TrackedDevicePose_t`. */
  datatype RawPose = RawPose(deviceToAbsoluteTracking: Mat34, velocity: Vec3,
                             angularVelocity: Vec3, deviceIsConnected: bool, poseIsValid: bool)

  /** A `VRDevicePose`. */
  datatype DevicePose = DevicePose(index: nat, transform: Mat44, velocity: Vec3,
                                   angularVelocity: Vec3, isValid: bool, isConnected: bool)

  type Poses = s: seq<DevicePose> | |s| == MaxTrackedDeviceCount
    witness seq(MaxTrackedDeviceCount, i => DevicePose(0, Identity, Vec3(0.0, 0.0, 0.0), Vec3(0.0, 0.0, 0.0), false, false))

  /** The pose every slot holds before the first frame: a fresh `Matrix4`
      (the identity), zero vectors, neither valid nor connected. */
  function InitialPose(index: nat): (p: DevicePose)
    ensures p.index == index && p.transform == Identity
    ensures p.velocity == Vec3(0.0, 0.0, 0.0) && p.angularVelocity == Vec3(0.0, 0.0, 0.0)
    ensures !p.isValid && !p.isConnected
  {
    DevicePose(index, Identity, Vec3(0.0, 0.0, 0.0), Vec3(0.0, 0.0, 0.0), false, false)
  }

  /** One iteration of the pose loop of `updateDevices`: every field of the
      slot's pose is overwritten, whether or not the raw pose is valid. */
  function CopyPose(index: nat, raw: RawPose): (p: DevicePose)
    ensures p.index == index
    ensures p.transform[12..15] == [raw.deviceToAbsoluteTracking[3], raw.deviceToAbsoluteTracking[7], raw.deviceToAbsoluteTracking[11]]
    ensures p.transform[15] == 1.0
    ensures p.isValid == raw.poseIsValid && p.isConnected == raw.deviceIsConnected
    ensures p.velocity == raw.velocity && p.angularVelocity == raw.angularVelocity
    ensures p.transform == HmdMat34ToMatrix4(raw.deviceToAbsoluteTracking)
  {
    DevicePose(index, HmdMat34ToMatrix4(raw.deviceToAbsoluteTracking), raw.velocity,
               raw.angularVelocity, raw.poseIsValid, raw.deviceIsConnected)
  }

  /** Every pose sits in the slot its index names. */
  predicate Indexed(poses: seq<DevicePose>)
  {
    forall i :: 0 <= i < |poses| ==> poses[i].index == i
  }

  // ---------------------------------------------------------------------
  // Device creation

  /** The class-to-type switch of `createDevice`; `None` is its early return. */
  function TypeOfClass(c: DeviceClass): (r: Option<DeviceType>)
    ensures r.None? <==> c == ClassUnhandled
    ensures r == Some(HeadMountedDisplay) <==> c == ClassHMD
    ensures r == Some(Controller) <==> c == ClassController
    ensures r == Some(BaseStation) <==> c == ClassTrackingReference
    ensures r == Some(Generic) <==> c == ClassOther
  {
    match c
    case ClassHMD => Some(HeadMountedDisplay)
    case ClassController => Some(Controller)
    case ClassTrackingReference => Some(BaseStation)
    case ClassOther => Some(Generic)
    case ClassUnhandled => None
  }

  /** The role switch of `createDevice`: only a controller asks for its role. */
  function RoleFor(kind: DeviceType, code: RoleCode): (r: ControllerRole)
    ensures kind != Controller ==> r == Unknown
    ensures kind == Controller ==> (r == LeftHand <==> code == RoleLeftHand) && (r == RightHand <==> code == RoleRightHand)
  {
    if kind != Controller then Unknown
    else match code
      case RoleLeftHand => LeftHand
      case RoleRightHand => RightHand
      case RoleUnhandled => Unknown
  }

  /** The device `createDevice(index)` would construct, if any. */
  function NewDevice(t: Tracking, index: int): (r: Option<Device>)
    ensures r.Some? <==> TypeOfClass(ClassAt(t, index)).Some?
    ensures r.Some? ==> 0 <= index < MaxTrackedDeviceCount && r.value.index == index && r.value.buttons == 0
    ensures r.Some? ==> r.value.kind == TypeOfClass(ClassAt(t, index)).value
    ensures r.Some? && r.value.role != Unknown ==> r.value.kind == Controller
    ensures r.Some? && r.value.kind != Controller ==> r.value.role == Unknown
    ensures r.Some? && r.value.kind == Controller ==>
      (r.value.role == LeftHand <==> RoleAt(t, index) == RoleLeftHand) &&
      (r.value.role == RightHand <==> RoleAt(t, index) == RoleRightHand)
  {
    match TypeOfClass(ClassAt(t, index))
    case None => None
    case Some(kind) => Some(Device(index, kind, RoleFor(kind, RoleAt(t, index)), 0))
  }

  /** `createDevice(index)`: write the new device into its slot, or leave the
      slots untouched when the class is not one of the four handled ones. */
  function CreateDevice(slots: Slots, t: Tracking, index: int): (r: Slots)
    ensures NewDevice(t, index).None? ==> r == slots
    ensures NewDevice(t, index).Some? ==> r[index] == NewDevice(t, index)
    ensures forall j :: 0 <= j < MaxTrackedDeviceCount && j != index ==> r[j] == slots[j]
  {
    match NewDevice(t, index)
    case None => slots
    case Some(d) => slots[index := Some(d)]
  }

  // ---------------------------------------------------------------------
  // Listener notifications

  /** A `VRDeviceListener` is identified by a number; the list may hold the
      same listener twice. */
  type ListenerId = nat

  /** The four callbacks of `VRDeviceListener`, with the arguments passed.
      `Connected(None)` is a `connected(null)` call. */
  datatype DeviceEvent =
    | Connected(connected: Option<Device>)
    | Disconnected(device: Device)
    | ButtonPressed(device: Device, button: int)
    | ButtonReleased(device: Device, button: int)

  datatype Notification = Notification(listener: ListenerId, event: DeviceEvent)

  /** The `for (VRDeviceListener l: listeners)` loops: one call per listener,
      in registration order. */
  function Broadcast(listeners: seq<ListenerId>, e: DeviceEvent): (r: seq<Notification>)
    ensures |r| == |listeners|
    ensures forall k :: 0 <= k < |r| ==> r[k].listener == listeners[k] && r[k].event == e
  {
    seq(|listeners|, k requires 0 <= k < |listeners| => Notification(listeners[k], e))
  }

  /** The slot array together with the notification log. */
  datatype Registry = Registry(slots: Slots, log: seq<Notification>)

  /** The activation branch (also one step of the initial enumeration):
      create the device, then notify `connected` with whatever the slot holds
      afterwards, even when `createDevice` returned early. */
  function Activate(reg: Registry, listeners: seq<ListenerId>, t: Tracking, index: nat): (r: Registry)
    requires index < MaxTrackedDeviceCount
    ensures r.log == reg.log + Broadcast(listeners, Connected(r.slots[index]))
    ensures forall j :: 0 <= j < MaxTrackedDeviceCount && j != index ==> r.slots[j] == reg.slots[j]
    ensures r.slots[index] == if NewDevice(t, index).Some? then NewDevice(t, index) else reg.slots[index]
  {
    var slots := CreateDevice(reg.slots, t, index);
    Registry(slots, reg.log + Broadcast(listeners, Connected(slots[index])))
  }

  // ---------------------------------------------------------------------
  // The event loop of updateDevices

  /** The index filter as written: `index < 0 || index > length`, so the
      index one past the last slot passes. */
  predicate PassesFilter(index: int)
  {
    !(index < 0 || index > MaxTrackedDeviceCount)
  }

  /** The filter the loop evidently intends: exactly the valid slots pass. */
  predicate PassesFilterIntended(index: int)
  {
    !(index < 0 || index >= MaxTrackedDeviceCount)
  }

  /** The result of handling one event: the new registry, or the
      `ArrayIndexOutOfBoundsException` raised by `devices[length]`, which
      leaves the registry as it was before the event. */
  datatype Step = Continue(reg: Registry) | Fault

  /** A button event on an occupied slot: update the mask, store the device,
      then notify with the updated device and the raw button id. */
  function PressOrRelease(reg: Registry, listeners: seq<ListenerId>, index: nat, button: int, pressed: bool): (r: Registry)
    requires index < MaxTrackedDeviceCount && reg.slots[index].Some?
    ensures forall j :: 0 <= j < MaxTrackedDeviceCount && j != index ==> r.slots[j] == reg.slots[j]
    ensures var d := reg.slots[index].value;
            r.slots[index].Some? && r.slots[index].value.index == d.index &&
            r.slots[index].value.kind == d.kind && r.slots[index].value.role == d.role &&
            r.slots[index].value.buttons == SetButton(d.buttons, button, pressed)
    ensures 0 <= button < 64 ==> IsButtonPressed(r.slots[index].value.buttons, button) == (pressed || IsButtonPressed(reg.slots[index].value.buttons, button))
    ensures r.log == reg.log + Broadcast(listeners,
      if pressed then ButtonPressed(r.slots[index].value, button) else ButtonReleased(r.slots[index].value, button))
  {
    var d := reg.slots[index].value;
    var updated := d.(buttons := SetButton(d.buttons, button, pressed));
    var e := if pressed then ButtonPressed(updated, button) else ButtonReleased(updated, button);
    Registry(reg.slots[index := Some(updated)], reg.log + Broadcast(listeners, e))
  }

  /** One iteration of the `while (PollNextEvent(...))` loop. */
  function HandleEvent(reg: Registry, listeners: seq<ListenerId>, t: Tracking, e: RawEvent): (s: Step)
    ensures !PassesFilter(e.trackedDeviceIndex) ==> s == Continue(reg)
    ensures s.Fault? <==>
      e.trackedDeviceIndex == MaxTrackedDeviceCount &&
      (e.eventType.TrackedDeviceDeactivated? || e.eventType.ButtonPress? || e.eventType.ButtonUnpress? ||
       (e.eventType.TrackedDeviceActivated? && listeners != []))
    ensures s.Continue? ==> reg.log <= s.reg.log
    ensures s.Continue? && Bound(reg.slots) ==> Bound(s.reg.slots)
  {
    var index := e.trackedDeviceIndex;
    if !PassesFilter(index) then Continue(reg)
    else if index == MaxTrackedDeviceCount then
      // createDevice(length) returns early (no class is reported there); every
      // other read of devices[length] throws
      match e.eventType
      case TrackedDeviceActivated => if listeners == [] then Continue(reg) else Fault
      case OtherEvent => Continue(reg)
      case _ => Fault
    else
      match e.eventType
      case TrackedDeviceActivated => Continue(Activate(reg, listeners, t, index))
      case TrackedDeviceDeactivated =>
        if reg.slots[index].None? then Continue(reg)
        else
          var d := reg.slots[index].value;
          Continue(Registry(reg.slots[index := None], reg.log + Broadcast(listeners, Disconnected(d))))
      case ButtonPress =>
        if reg.slots[index].None? then Continue(reg)
        else Continue(PressOrRelease(reg, listeners, index, e.button, true))
      case ButtonUnpress =>
        if reg.slots[index].None? then Continue(reg)
        else Continue(PressOrRelease(reg, listeners, index, e.button, false))
      case OtherEvent => Continue(reg)
  }

  /** The registry after draining a sequence of events, and whether the loop
      was ended by the out-of-bounds exception (the registry is then the one
      before the faulting event; later events are not handled). */
  datatype Drained = Drained(reg: Registry, faulted: bool)

  function Drain(reg: Registry, listeners: seq<ListenerId>, t: Tracking, events: seq<RawEvent>): (d: Drained)
    decreases |events|
    ensures reg.log <= d.reg.log
    ensures Bound(reg.slots) ==> Bound(d.reg.slots)
  {
    if events == [] then Drained(reg, false)
    else DrainStep(Drain(reg, listeners, t, events[..|events| - 1]), listeners, t, events[|events| - 1])
  }

  /** One more event after `prev`: nothing once the loop has faulted. */
  function DrainStep(prev: Drained, listeners: seq<ListenerId>, t: Tracking, e: RawEvent): (d: Drained)
    ensures prev.faulted ==> d == prev
    ensures prev.reg.log <= d.reg.log
    ensures Bound(prev.reg.slots) ==> Bound(d.reg.slots)
  {
    if prev.faulted then prev
    else match HandleEvent(prev.reg, listeners, t, e)
      case Continue(r) => Drained(r, false)
      case Fault => Drained(prev.reg, true)
  }

  // ---------------------------------------------------------------------
  // The one-time enumeration of the first begin()

  /** One iteration of the enumeration loop: a connected slot is activated. */
  function Announce(reg: Registry, listeners: seq<ListenerId>, t: Tracking, index: nat): (r: Registry)
    requires index < MaxTrackedDeviceCount
    ensures r.log == reg.log + if IsConnected(t, index) then Broadcast(listeners, Connected(r.slots[index])) else []
    ensures forall j :: 0 <= j < MaxTrackedDeviceCount && j != index ==> r.slots[j] == reg.slots[j]
    ensures r.slots[index] ==
      if IsConnected(t, index) && NewDevice(t, index).Some? then NewDevice(t, index) else reg.slots[index]
  {
    if IsConnected(t, index) then Activate(reg, listeners, t, index) else reg
  }

  /** The enumeration loop over slots 0 .. n-1. */
  function Enumerate(reg: Registry, listeners: seq<ListenerId>, t: Tracking, n: nat): (r: Registry)
    requires n <= MaxTrackedDeviceCount
    ensures reg.log <= r.log
    ensures Bound(reg.slots) ==> Bound(r.slots)
  {
    if n == 0 then reg
    else Announce(Enumerate(reg, listeners, t, n - 1), listeners, t, n - 1)
  }

  // ---------------------------------------------------------------------
  // Queries over the slots

  /** What the four query loops look for. */
  datatype Query = AnyDevice | OfType(kind: DeviceType) | ControllerInRole(role: ControllerRole)

  /** The condition inside each query loop; an empty slot never matches. */
  predicate Matches(slot: Option<Device>, q: Query)
  {
    slot.Some? &&
    match q
    case AnyDevice => true
    case OfType(kind) => slot.value.kind == kind
    case ControllerInRole(role) => slot.value.kind == Controller && slot.value.role == role
  }

  /** The lowest slot at or after `from` that matches. */
  function FirstMatch(slots: seq<Option<Device>>, q: Query, from: nat): (r: Option<nat>)
    requires from <= |slots|
    decreases |slots| - from
    ensures r.Some? ==> from <= r.value < |slots| && Matches(slots[r.value], q)
    ensures r.Some? ==> forall j :: from <= j < r.value ==> !Matches(slots[j], q)
    ensures r.None? ==> forall j :: from <= j < |slots| ==> !Matches(slots[j], q)
  {
    if from == |slots| then None
    else if Matches(slots[from], q) then Some(from)
    else FirstMatch(slots, q, from + 1)
  }

  /** `getDeviceByType` and `getControllerByRole`: the device in the lowest
      matching slot, or `null`. */
  function FindDevice(slots: seq<Option<Device>>, q: Query): (r: Option<Device>)
    ensures r.None? <==> forall j :: 0 <= j < |slots| ==> !Matches(slots[j], q)
    ensures r.Some? ==>
      exists i :: 0 <= i < |slots| && slots[i] == r && Matches(slots[i], q) &&
                  forall j :: 0 <= j < i ==> !Matches(slots[j], q)
  {
    match FirstMatch(slots, q, 0)
    case None => None
    case Some(i) => slots[i]
  }

  /** `getDevicesByType` and `getDevices`: every matching device, in slot order. */
  function AllMatching(slots: seq<Option<Device>>, q: Query): (r: seq<Device>)
    ensures |r| <= |slots|
  {
    if slots == [] then []
    else
      var last := slots[|slots| - 1];
      AllMatching(slots[..|slots| - 1], q) + if Matches(last, q) then [last.value] else []
  }

  // ---------------------------------------------------------------------
  // The listener list

  /** The first position of `x` in `s`. */
  function IndexOf(s: seq<ListenerId>, x: ListenerId): (k: nat)
    requires x in s
    ensures k < |s| && s[k] == x && x !in s[..k]
  {
    if s[0] == x then 0
    else
      assert x in s[1..];
      var k := IndexOf(s[1..], x);
      assert s[..k + 1] == [s[0]] + s[1..][..k];
      k + 1
  }

  /** Looking past a head that is not `x`. */
  lemma SkipHead(s: seq<ListenerId>, x: ListenerId)
    requires s != [] && s[0] != x
    ensures s == [s[0]] + s[1..]
    ensures x in s <==> x in s[1..]
    ensures x in s ==>
      IndexOf(s, x) == IndexOf(s[1..], x) + 1 &&
      s[..IndexOf(s, x)] == [s[0]] + s[1..][..IndexOf(s[1..], x)] &&
      s[IndexOf(s, x) + 1..] == s[1..][IndexOf(s[1..], x) + 1..]
  {
    if x in s {
      assert x in s[1..];
      var k := IndexOf(s[1..], x);
      assert s[..k + 1] == [s[0]] + s[1..][..k];
    }
  }

  /** `Array.removeValue(listener, true)`: drop the first occurrence, if any. */
  function RemoveFirst(s: seq<ListenerId>, x: ListenerId): (r: seq<ListenerId>)
    ensures x !in s ==> r == s
    ensures x in s ==> r == s[..IndexOf(s, x)] + s[IndexOf(s, x) + 1..]
  {
    if s == [] then []
    else if s[0] == x then s[1..]
    else
      SkipHead(s, x);
      [s[0]] + RemoveFirst(s[1..], x)
  }

  // ---------------------------------------------------------------------
  // Properties of the registry

  /** The connected slots among 0 .. n-1. */
  function ConnectedSet(t: Tracking, n: nat): set<int>
  {
    set i | 0 <= i < n && IsConnected(t, i)
  }

  /** Slot n-1 joins the connected set exactly when it is connected. */
  lemma ConnectedSetStep(t: Tracking, n: nat)
    requires 0 < n
    ensures |ConnectedSet(t, n)| == |ConnectedSet(t, n - 1)| + if IsConnected(t, n - 1) then 1 else 0
  {
    var before := ConnectedSet(t, n - 1);
    assert n - 1 !in before;
    assert ConnectedSet(t, n) == before + if IsConnected(t, n - 1) then {n - 1} else {};
  }

  /** The number of connected slots among 0 .. n-1. */
  function ConnectedCount(t: Tracking, n: nat): (k: nat)
    requires n <= MaxTrackedDeviceCount
    ensures k == |ConnectedSet(t, n)|
  {
    if n == 0 then
      assert ConnectedSet(t, 0) == {};
      0
    else
      ConnectedSetStep(t, n);
      ConnectedCount(t, n - 1) + if IsConnected(t, n - 1) then 1 else 0
  }

  /** The enumeration of slots 0 .. n-1 puts the new device into every
      connected slot whose class is handled and leaves every other slot as it
      was. */
  lemma {:induction false} EnumerateSlots(reg: Registry, listeners: seq<ListenerId>, t: Tracking, n: nat, i: nat)
    requires n <= MaxTrackedDeviceCount && i < MaxTrackedDeviceCount
    ensures Enumerate(reg, listeners, t, n).slots[i] ==
      if i < n && IsConnected(t, i) && NewDevice(t, i).Some? then NewDevice(t, i) else reg.slots[i]
  {
    if n > 0 {
      EnumerateSlots(reg, listeners, t, n - 1, i);
    }
  }

  /** Every listener is told about every connected slot exactly once:
      the enumeration makes |listeners| calls per connected slot. */
  lemma {:induction false} EnumerateNotificationCount(reg: Registry, listeners: seq<ListenerId>, t: Tracking, n: nat)
    requires n <= MaxTrackedDeviceCount
    ensures |Enumerate(reg, listeners, t, n).log| == |reg.log| + |listeners| * ConnectedCount(t, n)
  {
    if n > 0 {
      EnumerateNotificationCount(reg, listeners, t, n - 1);
      var k := ConnectedCount(t, n - 1);
      assert |listeners| * (k + 1) == |listeners| * k + |listeners|;
    }
  }

  /** Slots are reported in ascending order: the notifications for the
      first m slots come before those of any later slot. */
  lemma {:induction false} EnumerateInSlotOrder(reg: Registry, listeners: seq<ListenerId>, t: Tracking, m: nat, n: nat)
    requires m <= n <= MaxTrackedDeviceCount
    ensures Enumerate(reg, listeners, t, m).log <= Enumerate(reg, listeners, t, n).log
  {
    if m < n {
      EnumerateInSlotOrder(reg, listeners, t, m, n - 1);
    }
  }

  /** Slot n-1 is reported after slots 0 .. n-2 with one `connected` call per
      listener, in registration order, passing what the slot then holds. */
  lemma EnumerateStep(reg: Registry, listeners: seq<ListenerId>, t: Tracking, n: nat)
    requires 0 < n <= MaxTrackedDeviceCount
    ensures var before := Enumerate(reg, listeners, t, n - 1);
            var after := Enumerate(reg, listeners, t, n);
            after.log == before.log + if IsConnected(t, n - 1) then Broadcast(listeners, Connected(after.slots[n - 1])) else []
  {
  }

  /** An activation of a slot whose class `createDevice` handles stores the
      new device, then calls `connected` with it on every listener. */
  lemma ActivationCreatesThenNotifies(reg: Registry, listeners: seq<ListenerId>, t: Tracking, index: nat)
    requires index < MaxTrackedDeviceCount && NewDevice(t, index).Some?
    ensures HandleEvent(reg, listeners, t, RawEvent(TrackedDeviceActivated, index, 0)) ==
            Continue(Registry(reg.slots[index := NewDevice(t, index)],
                              reg.log + Broadcast(listeners, Connected(NewDevice(t, index)))))
  {
  }

  /** Event types the loop has no case for change nothing, at any index. */
  lemma OtherEventsIgnored(reg: Registry, listeners: seq<ListenerId>, t: Tracking, index: int, button: int)
    ensures HandleEvent(reg, listeners, t, RawEvent(OtherEvent, index, button)) == Continue(reg)
  {
  }

  /** An activation for a device whose class `createDevice` does not handle
      still calls `connected`, with what the slot already held (null for an
      empty slot). */
  lemma UnhandledActivationStillNotifies(reg: Registry, listeners: seq<ListenerId>, t: Tracking, index: nat)
    requires index < MaxTrackedDeviceCount && ClassAt(t, index) == ClassUnhandled
    ensures HandleEvent(reg, listeners, t, RawEvent(TrackedDeviceActivated, index, 0)) ==
            Continue(Registry(reg.slots, reg.log + Broadcast(listeners, Connected(reg.slots[index]))))
  {
  }

  /** Deactivation, press and release of an empty slot change nothing. */
  lemma EmptySlotEventsIgnored(reg: Registry, listeners: seq<ListenerId>, t: Tracking, e: RawEvent)
    requires 0 <= e.trackedDeviceIndex < MaxTrackedDeviceCount && reg.slots[e.trackedDeviceIndex].None?
    requires e.eventType.TrackedDeviceDeactivated? || e.eventType.ButtonPress? || e.eventType.ButtonUnpress?
    ensures HandleEvent(reg, listeners, t, e) == Continue(reg)
  {
  }

  /** Deactivation of an occupied slot calls `disconnected` on every listener
      with the device as it was, then empties the slot; nothing else changes. */
  lemma DeactivationNotifiesThenClears(reg: Registry, listeners: seq<ListenerId>, t: Tracking, index: nat)
    requires index < MaxTrackedDeviceCount && reg.slots[index].Some?
    ensures HandleEvent(reg, listeners, t, RawEvent(TrackedDeviceDeactivated, index, 0)) ==
            Continue(Registry(reg.slots[index := None],
                              reg.log + Broadcast(listeners, Disconnected(reg.slots[index].value))))
  {
  }

  /** A press or release on an occupied slot stores the updated mask and
      passes the updated device, with the raw button id, to every listener. */
  lemma ButtonEventUpdatesThenNotifies(reg: Registry, listeners: seq<ListenerId>, t: Tracking, e: RawEvent)
    requires 0 <= e.trackedDeviceIndex < MaxTrackedDeviceCount && reg.slots[e.trackedDeviceIndex].Some?
    requires e.eventType.ButtonPress? || e.eventType.ButtonUnpress?
    ensures var d := reg.slots[e.trackedDeviceIndex].value;
            var updated := d.(buttons := SetButton(d.buttons, e.button, e.eventType.ButtonPress?));
            HandleEvent(reg, listeners, t, e) ==
              Continue(Registry(reg.slots[e.trackedDeviceIndex := Some(updated)],
                                reg.log + Broadcast(listeners,
                                  if e.eventType.ButtonPress? then ButtonPressed(updated, e.button)
                                  else ButtonReleased(updated, e.button))))
  {
  }

  /** The index one past the last slot gets through the filter as written,
      and a deactivation there ends the event loop with the exception. */
  lemma IndexPastLastSlotFaults(reg: Registry, listeners: seq<ListenerId>, t: Tracking)
    ensures PassesFilter(MaxTrackedDeviceCount) && !PassesFilterIntended(MaxTrackedDeviceCount)
    ensures HandleEvent(reg, listeners, t, RawEvent(TrackedDeviceDeactivated, MaxTrackedDeviceCount, 0)).Fault?
    ensures Drain(reg, listeners, t, [RawEvent(TrackedDeviceDeactivated, MaxTrackedDeviceCount, 0)]) == Drained(reg, true)
  {
    var e := RawEvent(TrackedDeviceDeactivated, MaxTrackedDeviceCount, 0);
    assert [e][..0] == [];
  }

  /** The event step with the intended filter: indices outside the slots are
      skipped before anything reads the slot array. */
  function HandleEventIntended(reg: Registry, listeners: seq<ListenerId>, t: Tracking, e: RawEvent): (s: Step)
    ensures s.Continue?
    ensures PassesFilterIntended(e.trackedDeviceIndex) ==> s == HandleEvent(reg, listeners, t, e)
    ensures !PassesFilterIntended(e.trackedDeviceIndex) ==> s == Continue(reg)
  {
    if !PassesFilterIntended(e.trackedDeviceIndex) then Continue(reg)
    else HandleEvent(reg, listeners, t, e)
  }

  /** The only difference between the two filters is the index one past the
      last slot. */
  lemma FiltersDifferOnlyAtLength(index: int)
    ensures PassesFilter(index) != PassesFilterIntended(index) <==> index == MaxTrackedDeviceCount
  {
  }

  /** Draining a sequence of events one after the other: the first part is
      drained, then, unless it faulted, the rest from where it stopped. */
  lemma {:induction false} DrainAppend(reg: Registry, listeners: seq<ListenerId>, t: Tracking, a: seq<RawEvent>, b: seq<RawEvent>)
    ensures var first := Drain(reg, listeners, t, a);
            Drain(reg, listeners, t, a + b) ==
              if first.faulted then first else Drain(first.reg, listeners, t, b)
    decreases |b|
  {
    if b == [] {
      assert a + b == a;
    } else {
      var ab, front, e := a + b, b[..|b| - 1], b[|b| - 1];
      assert ab[..|ab| - 1] == a + front;
      assert ab[|ab| - 1] == e;
      DrainAppend(reg, listeners, t, a, front);
      var first := Drain(reg, listeners, t, a);
      assert Drain(reg, listeners, t, ab) == DrainStep(Drain(reg, listeners, t, a + front), listeners, t, e);
      if !first.faulted {
        assert Drain(first.reg, listeners, t, b) == DrainStep(Drain(first.reg, listeners, t, front), listeners, t, e);
      }
    }
  }

  /** Draining a single event is handling it. */
  lemma DrainOne(reg: Registry, listeners: seq<ListenerId>, t: Tracking, e: RawEvent)
    ensures Drain(reg, listeners, t, [e]) ==
      match HandleEvent(reg, listeners, t, e)
      case Continue(r) => Drained(r, false)
      case Fault => Drained(reg, true)
  {
    assert [e][..0] == [];
  }

  /** Every matching slot's device is in the list. */
  lemma {:induction false} AllMatchingComplete(slots: seq<Option<Device>>, q: Query, i: nat)
    requires i < |slots| && Matches(slots[i], q)
    ensures slots[i].value in AllMatching(slots, q)
  {
    var n := |slots| - 1;
    if i < n {
      assert slots[..n][i] == slots[i];
      AllMatchingComplete(slots[..n], q, i);
    }
  }

  /** Only matching devices of the slots are in the list. */
  lemma {:induction false} AllMatchingSound(slots: seq<Option<Device>>, q: Query, d: Device)
    requires d in AllMatching(slots, q)
    ensures Matches(Some(d), q) && Some(d) in slots
  {
    var n := |slots| - 1;
    if d in AllMatching(slots[..n], q) {
      AllMatchingSound(slots[..n], q, d);
      assert slots[..n] <= slots;
    } else {
      assert d == slots[n].value;
    }
  }

  /** With every device in its own slot, the list is in ascending slot order. */
  lemma {:induction false} AllMatchingInSlotOrder(slots: seq<Option<Device>>, q: Query)
    requires Bound(slots)
    ensures forall a, b :: 0 <= a < b < |AllMatching(slots, q)| ==>
              AllMatching(slots, q)[a].index < AllMatching(slots, q)[b].index
    ensures forall d :: d in AllMatching(slots, q) ==> d.index < |slots|
  {
    if slots != [] {
      var n := |slots| - 1;
      var prefix := slots[..n];
      assert Bound(prefix);
      AllMatchingInSlotOrder(prefix, q);
      var front := AllMatching(prefix, q);
      var r := AllMatching(slots, q);
      if Matches(slots[n], q) {
        assert r == front + [slots[n].value];
        assert slots[n].value.index == n;
        forall a, b | 0 <= a < b < |r| ensures r[a].index < r[b].index {
          if b < |front| {
            assert r[a] == front[a] && r[b] == front[b];
          } else {
            assert r[a] == front[a] && front[a] in front;
            assert r[b] == slots[n].value;
          }
        }
      } else {
        assert r == front;
      }
    }
  }

  /** A slot that is empty contributes to no query: neither the single-device
      queries nor the list queries return a device bound to it. */
  lemma EmptySlotNotReturned(slots: seq<Option<Device>>, q: Query, i: nat)
    requires Bound(slots) && i < |slots| && slots[i].None?
    ensures FindDevice(slots, q).None? || FindDevice(slots, q).value.index != i
    ensures forall d :: d in AllMatching(slots, q) ==> d.index != i
  {
    forall d | d in AllMatching(slots, q) ensures d.index != i {
      AllMatchingSound(slots, q, d);
    }
  }

  /** Registering a listener that was not registered and removing it again
      gives back the list. */
  lemma {:induction false} AddThenRemove(s: seq<ListenerId>, x: ListenerId)
    requires x !in s
    ensures RemoveFirst(s + [x], x) == s
  {
    assert IndexOf(s + [x], x) == |s|;
    assert (s + [x])[..|s|] == s;
  }

  /** Removing a listener registered twice keeps the second registration. */
  lemma {:induction false} RemoveKeepsLaterRegistration(s: seq<ListenerId>, x: ListenerId)
    requires multiset(s)[x] >= 2
    ensures x in RemoveFirst(s, x)
    ensures multiset(RemoveFirst(s, x)) == multiset(s) - multiset{x}
  {
    assert x in multiset(s);
    var k := IndexOf(s, x);
    assert s == s[..k] + [x] + s[k + 1..];
    assert multiset(s) == multiset(s[..k]) + multiset{x} + multiset(s[k + 1..]);
    assert x !in multiset(s[..k]);
  }
}
