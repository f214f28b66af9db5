# gdx-vr `VRContext`, modelled in Dafny

`VRContext` is the libgdx wrapper around OpenVR. It is what an application
talks to for VR. This model covers the parts of it that are logic rather than
native calls:

- **The frame lifecycle.** `begin`, `beginEye`, `endEye` and `end` are guarded by two fields, `renderingStarted` and `currentEye`.
- **The device registry.** This is a fixed array of 16 slots, one per OpenVR tracked-device index:
  - It is filled by a one-time enumeration in the first `begin()`.
  - It is kept up to date by the event loop of `updateDevices`: activation, deactivation, button press and button release.
  - Registered listeners are notified of every change, in registration order.
  - It can be read through the four query methods and `getDevicePose`.
- **The 64-bit button mask** of `VRDevice`.
- **The two matrix conversions** from OpenVR's row-major arrays to libgdx's column-major `Matrix4`.

Modules:

- `Matrices` (`matrices.dfy`): `hmdMat4toMatrix4` and `hmdMat34ToMatrix4` as functions on sequences.
- `Buttons` (`buttons.dfy`): `isButtonPressed` and `setButton` on `bv64`. Java's `1l << button` shifts by `button % 64`, and the model says so.
- `Devices` (`devices.dfy`): the registry as values, covering creation, the event step, the drain of an event sequence, the enumeration, the queries and the listener list, together with their properties.
- `Frames` (`frames.dfy`): the whole context as a value, with one function per lifecycle call, each returning the next context and an outcome (`Done` or the exception thrown). The lifecycle properties are proved here.
- `Runtime` (`runtime.dfy`): `class VRContext`, with the two slot arrays as `array`s and the other fields as `var`s. Each public method is proved to move the object's abstract value (`Model()`) exactly as the matching `Frames` function says. The loops of the source are loops here, each carrying its invariant.
- `Scenarios` (`scenarios.dfy`): whole call and event sequences, such as the ClearTest frame, a connect/disconnect, and a press/release.

The outside world is made up of three kinds of input and two records:

- **OpenVR inputs:**
  - a `Tracking` snapshot: the connected flag, the device class and the controller role per slot;
  - the raw poses `WaitGetPoses` fills in;
  - the finite sequence of events `PollNextEvent` returns.
- **Listener calls** become `Notification`s appended to a log.
- **Outward calls** are appended to an effect trace. These are `WaitGetPoses`, the camera updates, the eye buffer `begin`/`end`, `Submit`, `glFinish` and `PostPresentHandoff`.

The model follows the code, including where it may surprise a caller:

- `end()` does not check `currentEye`. If an eye is still open, the frame closes and the eye stays recorded (`Frames.EndWithEyeOpenLeavesEyeOpen`).
- An activation for a class `createDevice` does not handle still calls `connected`. The argument is whatever the slot already held, which is `null` for an empty slot.

Every raw pose is copied into its slot, valid or not; `isValid` is a flag
for the caller to read (`Frames.PosesComeOnlyFromThisFrame`).

Java exceptions become outcomes, a choice of this model:

- A lifecycle guard that throws leaves the context unchanged.
- An `ArrayIndexOutOfBoundsException` from the event loop ends `begin()` with `renderingStarted` already set, the enumeration done and the poses copied. Events after the faulting one are not handled.

## Model

| member | source | states |
|---|---|---|
| Matrices.HmdMat4ToMatrix4 | src/com/badlogic/gdx/vr/VRContext.java:616-639 | raw element (row r, column c) lands at column-major position 4c + r |
| Matrices.HmdMat34ToMatrix4 | src/com/badlogic/gdx/vr/VRContext.java:641-664 | rows 0-2 transposed, bottom row synthesised as 0, 0, 0, 1, translation column (m[3], m[7], m[11]) in val[12], val[13], val[14] |
| Matrices.Mat4RoundTrip | src/com/badlogic/gdx/vr/VRContext.java:616-639 | the 4x4 conversion is a transpose: applied twice it is the identity |
| Matrices.Mat34IsCompletedMat4 | src/com/badlogic/gdx/vr/VRContext.java:641-664 | the 3x4 conversion equals the 4x4 one on the input completed with the affine row 0, 0, 0, 1 |
| Matrices.PureTranslation | src/com/badlogic/gdx/vr/VRContext.java:641-664 | a pure translation (x, y, z) becomes the identity rotation with translation column (x, y, z) |
| Buttons.Distance | src/com/badlogic/gdx/vr/VRContext.java:558 | the shift distance Java uses for `1l << button` is button mod 64 |
| Buttons.IsButtonPressed | src/com/badlogic/gdx/vr/VRContext.java:556-559 | ids outside [0, 64) are never pressed; otherwise pressed iff bit `button` of the mask is set |
| Buttons.SetButton | src/com/badlogic/gdx/vr/VRContext.java:561-567 | a press sets exactly bit button mod 64 and keeps the others; a release as written keeps only that bit, as it was |
| Buttons.ReleaseIntended | src/com/badlogic/gdx/vr/VRContext.java:565 | the intended release clears exactly bit button mod 64 and keeps every other bit |
| Buttons.ReleaseAsWrittenKeepsButton | src/com/badlogic/gdx/vr/VRContext.java:561-567 | press then release as written leaves the button reported pressed |
| Buttons.ReleaseAsWrittenCounterexample | src/com/badlogic/gdx/vr/VRContext.java:565 | with buttons 3 and 7 held, releasing 7 keeps 7 and drops 3 |
| Buttons.PressReleaseRoundTrip | src/com/badlogic/gdx/vr/VRContext.java:561-567 | with the intended release, press then release restores a mask in which the button was clear |
| Buttons.SetButtonMasksShiftDistance | src/com/badlogic/gdx/vr/VRContext.java:556-567 | setButton(64 + k) presses button k, while isButtonPressed(64 + k) stays false |
| Buttons.AndBitTests | src/com/badlogic/gdx/vr/VRContext.java:558 | the `&` test of isButtonPressed tests exactly one bit |
| Buttons.BitAtSingleBit | src/com/badlogic/gdx/vr/VRContext.java:558 | `1l << d` (BitAt) has bit d set and every other bit clear |
| Devices.CopyPose | src/com/badlogic/gdx/vr/VRContext.java:285-294 | the copied pose keeps its slot index; its transform is the 3x4 conversion of the raw matrix (translation in val[12..14], val[15] = 1); velocity, angular velocity and both flags are the raw ones, whatever its validity |
| Devices.NewDevice | src/com/badlogic/gdx/vr/VRContext.java:340-373 | a device is created iff the class is HMD, controller, tracking reference or other, with the mapped type, its own index and no buttons; a controller is LeftHand or RightHand exactly when OpenVR reports that hand, else Unknown; every other type is Unknown |
| Devices.InitialPose | src/com/badlogic/gdx/vr/VRContext.java:164-166 | a fresh pose carries its slot index, the identity transform, zero velocities and both flags false |
| Devices.TypeOfClass | src/com/badlogic/gdx/vr/VRContext.java:343-358 | HMD, controller, tracking reference and other map to HeadMountedDisplay, Controller, BaseStation and Generic, one to one; any other class gives no type |
| Devices.RoleFor | src/com/badlogic/gdx/vr/VRContext.java:360-371 | only a controller gets a role; it is LeftHand or RightHand exactly for that role code, else Unknown |
| Devices.CreateDevice | src/com/badlogic/gdx/vr/VRContext.java:340-373 | without a handled class the slots stay as they are; otherwise the slot holds the new device; no other slot changes |
| Devices.Broadcast | src/com/badlogic/gdx/vr/VRContext.java:271-273 | one notification per registration, the k-th to the k-th registered listener, all with the same event |
| Devices.Activate | src/com/badlogic/gdx/vr/VRContext.java:302-307 | only the activated slot can change; it takes the new device if one is created, else keeps what it held; every listener then gets `connected` with the slot's content |
| Devices.HandleEvent | src/com/badlogic/gdx/vr/VRContext.java:296-337 | filtered indices change nothing; the step faults exactly for index 16 with a slot read (deactivate, press, release, or activate with a listener); otherwise notifications only append and devices stay in their own slots |
| Devices.PressOrRelease | src/com/badlogic/gdx/vr/VRContext.java:316-335 | only the event's slot changes; the device keeps its index, type and role and gets the updated mask (a press makes the button read pressed); every listener gets the updated device with the raw button id |
| Devices.Drain | src/com/badlogic/gdx/vr/VRContext.java:296-337 | the event loop only appends notifications and keeps every device in its own slot |
| Devices.DrainStep | src/com/badlogic/gdx/vr/VRContext.java:296-337 | once the loop has faulted, no later event is handled; otherwise notifications only append and devices stay in their own slots |
| Devices.Enumerate | src/com/badlogic/gdx/vr/VRContext.java:267-277 | the enumeration only appends notifications and keeps every device in its own slot |
| Devices.Announce | src/com/badlogic/gdx/vr/VRContext.java:269-274 | a connected slot takes its new device if its class is handled and is reported to every listener; a slot that is not connected changes nothing |
| Devices.ConnectedCount | src/com/badlogic/gdx/vr/VRContext.java:268-269 | equals the size of the set of connected slots among 0 .. n-1 |
| Devices.FirstMatch | src/com/badlogic/gdx/vr/VRContext.java:212-217 | the result is the lowest matching slot at or after `from`, or none when no slot matches |
| Devices.FindDevice | src/com/badlogic/gdx/vr/VRContext.java:212-217 | null iff no slot matches, else the device of the lowest matching slot (also getControllerByRole, lines 244-249) |
| Devices.AllMatching | src/com/badlogic/gdx/vr/VRContext.java:222-239 | the list is no longer than the slot array (what it holds, and in which order, is stated by the three AllMatching lemmas) |
| Devices.IndexOf | src/com/badlogic/gdx/vr/VRContext.java:205-207 | the position found holds the listener and no earlier one does |
| Devices.RemoveFirst | src/com/badlogic/gdx/vr/VRContext.java:205-207 | an unregistered listener leaves the list as is; otherwise exactly its first registration is cut out |
| Devices.EnumerateSlots | src/com/badlogic/gdx/vr/VRContext.java:267-277 | after the enumeration, each connected slot with a handled class holds its new device and every other slot is unchanged |
| Devices.EnumerateNotificationCount | src/com/badlogic/gdx/vr/VRContext.java:267-277 | the enumeration makes one `connected` call per listener per connected slot |
| Devices.EnumerateInSlotOrder | src/com/badlogic/gdx/vr/VRContext.java:268-275 | notifications for lower slots come before those for higher slots |
| Devices.EnumerateStep | src/com/badlogic/gdx/vr/VRContext.java:269-274 | slot n-1 adds one `connected` call per listener, with the slot's content, exactly when it is connected |
| Devices.UnhandledActivationStillNotifies | src/com/badlogic/gdx/vr/VRContext.java:302-306 | activating an unhandled class leaves the slots and still calls `connected` with the old slot content |
| Devices.ActivationCreatesThenNotifies | src/com/badlogic/gdx/vr/VRContext.java:302-306 | activating a slot with a handled class stores the new device, then every listener gets `connected` with it |
| Devices.OtherEventsIgnored | src/com/badlogic/gdx/vr/VRContext.java:301-336 | an event type the switch has no case for changes nothing, at any index |
| Devices.EmptySlotEventsIgnored | src/com/badlogic/gdx/vr/VRContext.java:308-335 | deactivate, press and release of an empty slot change nothing |
| Devices.DeactivationNotifiesThenClears | src/com/badlogic/gdx/vr/VRContext.java:308-315 | deactivation calls `disconnected` with the device as it was, then empties the slot |
| Devices.ButtonEventUpdatesThenNotifies | src/com/badlogic/gdx/vr/VRContext.java:316-335 | press and release store the updated mask first and pass the updated device and the raw button id |
| Devices.IndexPastLastSlotFaults | src/com/badlogic/gdx/vr/VRContext.java:298 | index 16 passes the filter as written, not the intended one, and a deactivation there ends the drain with the exception |
| Devices.HandleEventIntended | src/com/badlogic/gdx/vr/VRContext.java:296-337 | with the intended filter the step never faults and agrees with the original on every valid index |
| Devices.FiltersDifferOnlyAtLength | src/com/badlogic/gdx/vr/VRContext.java:298 | the two filters disagree on exactly one index, the slot count |
| Devices.DrainAppend | src/com/badlogic/gdx/vr/VRContext.java:296-337 | draining a + b is draining a, then, unless it faulted, draining b from where it stopped |
| Devices.DrainOne | src/com/badlogic/gdx/vr/VRContext.java:296-337 | draining one event is handling it |
| Devices.AllMatchingComplete | src/com/badlogic/gdx/vr/VRContext.java:222-239 | every matching device is in the list |
| Devices.AllMatchingSound | src/com/badlogic/gdx/vr/VRContext.java:222-239 | only matching devices held by a slot are in the list |
| Devices.AllMatchingInSlotOrder | src/com/badlogic/gdx/vr/VRContext.java:222-239 | the list is in strictly ascending slot order |
| Devices.EmptySlotNotReturned | src/com/badlogic/gdx/vr/VRContext.java:212-249 | no query returns a device bound to an empty slot |
| Devices.AddThenRemove | src/com/badlogic/gdx/vr/VRContext.java:198-207 | adding a new listener and removing it gives the list back |
| Devices.RemoveKeepsLaterRegistration | src/com/badlogic/gdx/vr/VRContext.java:205-207 | removing a listener registered twice removes exactly one registration |
| Frames.Initial | src/com/badlogic/gdx/vr/VRContext.java:140-148 | a new context has no frame, no eye, no enumeration, every slot empty |
| Frames.Begin | src/com/badlogic/gdx/vr/VRContext.java:261-282 | fails, changing nothing, iff a frame is open; otherwise the frame is open, the enumeration is marked done, the eye and listeners are kept, every pose is this frame's copy, the slots and notifications are what draining the events from the enumerated (first call) or current registry gives, it fails with the event-loop exception exactly when that drain faults, and the trace is WaitGetPoses then the two camera updates on success |
| Frames.BeginEye | src/com/badlogic/gdx/vr/VRContext.java:386-391 | succeeds iff a frame is open with no eye, with the two guard failures in order; opens the eye and begins its buffer |
| Frames.EndEye | src/com/badlogic/gdx/vr/VRContext.java:396-400 | succeeds iff an eye is open, whatever `renderingStarted`; closes it and ends that eye's buffer |
| Frames.End | src/com/badlogic/gdx/vr/VRContext.java:406-414 | succeeds iff a frame is open; closes it, keeps any open eye, then submits Left, Right, waits for GL and hands off, in that order |
| Frames.GetDevicePose | src/com/badlogic/gdx/vr/VRContext.java:251-254 | throws iff the index is outside [0, 16); otherwise returns the pose of that slot, which carries that index |
| Frames.EyeWithoutFrameOnlyViaEnd | src/com/badlogic/gdx/vr/VRContext.java:386-414 | the eye-without-frame phase is entered only by `end()` with an eye open |
| Frames.EndWithEyeOpenLeavesEyeOpen | src/com/badlogic/gdx/vr/VRContext.java:406-408 | after `end()` with an eye open, the next `begin()` opens a frame in which that eye is already open, so `beginEye` is refused until `endEye()` |
| Frames.FirstBeginReportsConnectedDevices | src/com/badlogic/gdx/vr/VRContext.java:267-277 | the first begin creates a device for every connected handled slot and notifies each listener once per connected slot |
| Frames.LaterBeginDoesNotEnumerate | src/com/badlogic/gdx/vr/VRContext.java:267 | once the enumeration is done, a begin with no events changes no device and notifies no one |
| Frames.LaterBeginOnlyDrains | src/com/badlogic/gdx/vr/VRContext.java:267-278 | once the enumeration is done, a begin changes the devices only by draining its events from the current registry, and succeeds exactly when that drain does not fault |
| Frames.PosesComeOnlyFromThisFrame | src/com/badlogic/gdx/vr/VRContext.java:285-294 | the poses after begin depend only on this frame's raw poses |
| Frames.PoseLookupAfterBegin | src/com/badlogic/gdx/vr/VRContext.java:251-254 | after begin, getDevicePose(i) is this frame's copy of raw pose i |
| Runtime.VRContext.constructor | src/com/badlogic/gdx/vr/VRContext.java:157-176 | the new object's value is the initial context, with fresh slot and pose arrays |
| Runtime.VRContext.AddListener | src/com/badlogic/gdx/vr/VRContext.java:198-200 | the listener is appended |
| Runtime.VRContext.RemoveListener | src/com/badlogic/gdx/vr/VRContext.java:205-207 | the first registration of the listener is removed |
| Runtime.VRContext.Notify | src/com/badlogic/gdx/vr/VRContext.java:271-273 | one callback per registration, in registration order, appended to the log |
| Runtime.VRContext.GetDeviceByType | src/com/badlogic/gdx/vr/VRContext.java:212-217 | returns the device of the lowest slot of that type, or null |
| Runtime.VRContext.GetControllerByRole | src/com/badlogic/gdx/vr/VRContext.java:244-249 | returns the controller of the lowest slot with that role, or null |
| Runtime.VRContext.GetDevicesByType | src/com/badlogic/gdx/vr/VRContext.java:222-228 | returns every device of that type, in slot order |
| Runtime.VRContext.GetDevices | src/com/badlogic/gdx/vr/VRContext.java:233-239 | returns every connected device, in slot order |
| Runtime.VRContext.GetDevicePose | src/com/badlogic/gdx/vr/VRContext.java:251-254 | agrees with Frames.GetDevicePose on the object's value |
| Runtime.VRContext.CreateDevice | src/com/badlogic/gdx/vr/VRContext.java:340-373 | the slots afterwards are Devices.CreateDevice of the slots before |
| Runtime.VRContext.ProcessEvent | src/com/badlogic/gdx/vr/VRContext.java:297-336 | one loop iteration does what Devices.HandleEvent says; on the exception nothing has changed |
| Runtime.VRContext.UpdateDevices | src/com/badlogic/gdx/vr/VRContext.java:284-338 | every pose is this frame's copy, and slots and log are what Devices.Drain gives |
| Runtime.VRContext.DrainStopsAtFault | src/com/badlogic/gdx/vr/VRContext.java:296-337 | once a prefix of the events faults, the rest are not handled |
| Runtime.VRContext.ReportInitialDevices | src/com/badlogic/gdx/vr/VRContext.java:267-277 | slots and log afterwards are what Devices.Enumerate gives |
| Runtime.VRContext.Begin | src/com/badlogic/gdx/vr/VRContext.java:261-282 | keeps the invariant and moves the object's value as Frames.Begin |
| Runtime.VRContext.BeginEye | src/com/badlogic/gdx/vr/VRContext.java:386-391 | keeps the invariant and moves the object's value as Frames.BeginEye |
| Runtime.VRContext.EndEye | src/com/badlogic/gdx/vr/VRContext.java:396-400 | keeps the invariant and moves the object's value as Frames.EndEye |
| Runtime.VRContext.End | src/com/badlogic/gdx/vr/VRContext.java:406-414 | keeps the invariant and moves the object's value as Frames.End |
| Scenarios.ClearTestFrame | test/com/badlogic/gdx/vr/ClearTest.java:23-32 | from idle, begin, left eye, right eye, end all succeed when begin does; the context is idle again with the devices begin left, and the outward calls come in frame order |
| Scenarios.ConnectThenDisconnect | src/com/badlogic/gdx/vr/VRContext.java:302-315 | connect then disconnect of slot 3 gives each listener `connected` then `disconnected` with the same device, and no query returns slot 3 afterwards |
| Scenarios.PressThenReleaseSeven | src/com/badlogic/gdx/vr/VRContext.java:316-335 | press then release of button 7 notifies pressed then released, and button 7 is still reported pressed |

## Left out

- OpenVR itself (`VR_Init`, `checkInitError`, the compositor, `PollNextEvent` and the device-property calls) is not modelled. Its answers are inputs: a `Tracking` snapshot, the raw poses and the event sequence.
- There is one `Tracking` snapshot per `begin()`. The enumeration and every event of the drain see the same connected, class and role answers, whereas the source asks OpenVR afresh at each `createDevice`. A slot whose class or role changes between two events of one frame is not modelled.
- The notification log and the effect trace are separate sequences, so the order between listener calls and outward calls is not recorded. In the source, the enumeration callbacks come after `WaitGetPoses`, and the camera updates come after the last event callback.
- The index past the last slot is assumed to have the invalid device class, so `createDevice(16)` returns early. Nothing in OpenVR's contract says otherwise.
- `setupEye`, the frame buffers, texture regions and the `SpriteBatch` are rendering resources. Only the buffer begin/end calls are kept, in the effect trace.
- `VRCamera.update` is not part of this model. Its two calls are recorded in the trace.
- `dispose` is left out. It releases native and GL resources only.
- `getEyeData` returns rendering resources, which this model does not hold. `resizeCompanionWindow` and `renderToCompanionWindow` draw to the desktop window.
- `VRDevice.getAxisX`, `getAxisY`, `triggerHapticPulse` and `isConnected` call OpenVR directly and keep no state. `toString` is formatting only.
- `VRDevice.setControllerRole` has no caller in the context.
- Listener callback bodies are not modelled. A callback is recorded as a notification, and a callback cannot call back into the context.
- `VRDevice` objects are values stored in their slot. The device a listener receives is a copy, so aliasing between a listener's reference and the slot is not modelled.
- Pose components are `real`. Float rounding does not arise, because the conversions only copy elements.
- ClearTest's `pollEvents()` call and its no-argument constructor do not exist in `VRContext.java`. The frame sequence is modelled without them.
- Runtime.VRContext.Notify: does not model a listener that adds or removes listeners while being called, because callback bodies are not modelled.

## Findings

| source | as written | input that shows it | evidently intended | confidence | as-written member | corrected member |
|---|---|---|---|---|---|---|
| src/com/badlogic/gdx/vr/VRContext.java:565 | a release does `buttons &= (1l << button)`: it keeps only the released bit, unchanged | buttons 3 and 7 held, release 7: 7 stays pressed, 3 is dropped | `buttons &= ~(1l << button)`, which clears only that bit, so press then release restores the mask | not executed | Buttons.ReleaseAsWrittenCounterexample | Buttons.PressReleaseRoundTrip |
| src/com/badlogic/gdx/vr/VRContext.java:298 | the event filter skips `index > length`, so index 16 reaches `devices[16]` | a deactivation event with trackedDeviceIndex 16 throws ArrayIndexOutOfBoundsException from `begin()` | skip `index >= length`, so no event can make the loop throw | not executed | Devices.IndexPastLastSlotFaults | Devices.HandleEventIntended |
