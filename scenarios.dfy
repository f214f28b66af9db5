/** Whole sequences of calls and events, stated against the functions of
    modules Frames and Devices. */
module Scenarios {
  import opened Buttons
  import opened Devices
  import opened Frames

  /** The frame ClearTest renders: begin, the left eye, the right eye, end.
      From the idle phase, and as long as `begin()` itself succeeds (draining
      the events does not fault), every later call succeeds, the context is idle again, the devices are what
      `begin()` left, and the outward calls are made in this order. */
  lemma ClearTestFrame(c: Context, t: Tracking, raw: seq<RawPose>, events: seq<RawEvent>)
    requires Valid(c) && |raw| == MaxTrackedDeviceCount && PhaseOf(c) == Idle
    requires Begin(c, t, raw, events).outcome == Done
    ensures var b := Begin(c, t, raw, events);
            var l1 := BeginEye(b.next, Left);
            var l2 := EndEye(l1.next);
            var r1 := BeginEye(l2.next, Right);
            var r2 := EndEye(r1.next);
            var e := End(r2.next);
            b.outcome == Done && l1.outcome == Done && l2.outcome == Done &&
            r1.outcome == Done && r2.outcome == Done && e.outcome == Done &&
            PhaseOf(e.next) == Idle && SameDevices(b.next, e.next) &&
            e.next.trace == c.trace + [WaitGetPoses, UpdateCamera(Left), UpdateCamera(Right),
                                       BufferBegin(Left), BufferEnd(Left),
                                       BufferBegin(Right), BufferEnd(Right),
                                       Submit(Left), Submit(Right), GlFinish, PostPresentHandoff]
  {
  }

  /** A device connects to slot 3 and disconnects again within one frame's
      events: every listener is told `connected` and then `disconnected`, with
      the same device, and afterwards no query returns a device of slot 3. */
  lemma ConnectThenDisconnect(reg: Registry, listeners: seq<ListenerId>, t: Tracking, q: Query)
    requires Bound(reg.slots) && NewDevice(t, 3).Some?
    ensures var d := NewDevice(t, 3).value;
            var events := [RawEvent(TrackedDeviceActivated, 3, 0), RawEvent(TrackedDeviceDeactivated, 3, 0)];
            var out := Drain(reg, listeners, t, events);
            !out.faulted && out.reg.slots == reg.slots[3 := None] &&
            out.reg.log == reg.log + Broadcast(listeners, Connected(Some(d))) + Broadcast(listeners, Disconnected(d)) &&
            (FindDevice(out.reg.slots, q).None? || FindDevice(out.reg.slots, q).value.index != 3) &&
            (forall x :: x in AllMatching(out.reg.slots, q) ==> x.index != 3)
  {
    var activated, deactivated := RawEvent(TrackedDeviceActivated, 3, 0), RawEvent(TrackedDeviceDeactivated, 3, 0);
    var d := NewDevice(t, 3).value;
    DrainAppend(reg, listeners, t, [activated], [deactivated]);
    assert [activated] + [deactivated] == [activated, deactivated];
    DrainOne(reg, listeners, t, activated);
    var mid := Registry(reg.slots[3 := Some(d)], reg.log + Broadcast(listeners, Connected(Some(d))));
    assert HandleEvent(reg, listeners, t, activated) == Continue(mid);
    DrainOne(mid, listeners, t, deactivated);
    DeactivationNotifiesThenClears(mid, listeners, t, 3);
    var out := Drain(reg, listeners, t, [activated, deactivated]);
    assert out.reg.slots == reg.slots[3 := None];
    EmptySlotNotReturned(out.reg.slots, q, 3);
  }

  /** A controller in slot i is sent a press and then a release of button 7:
      every listener is told `buttonPressed` and then `buttonReleased`, but
      because the release as written keeps the bit, the device still reports
      button 7 as pressed. */
  lemma PressThenReleaseSeven(reg: Registry, listeners: seq<ListenerId>, t: Tracking, i: nat)
    requires i < MaxTrackedDeviceCount && reg.slots[i].Some?
    ensures var d := reg.slots[i].value;
            var pressed := d.(buttons := SetButton(d.buttons, 7, true));
            var released := pressed.(buttons := SetButton(pressed.buttons, 7, false));
            var out := Drain(reg, listeners, t, [RawEvent(ButtonPress, i, 7), RawEvent(ButtonUnpress, i, 7)]);
            !out.faulted && out.reg.slots == reg.slots[i := Some(released)] &&
            out.reg.log == reg.log + Broadcast(listeners, ButtonPressed(pressed, 7)) +
                           Broadcast(listeners, ButtonReleased(released, 7)) &&
            IsButtonPressed(released.buttons, 7)
  {
    var press, unpress := RawEvent(ButtonPress, i, 7), RawEvent(ButtonUnpress, i, 7);
    var d := reg.slots[i].value;
    var pressed := d.(buttons := SetButton(d.buttons, 7, true));
    DrainAppend(reg, listeners, t, [press], [unpress]);
    assert [press] + [unpress] == [press, unpress];
    DrainOne(reg, listeners, t, press);
    ButtonEventUpdatesThenNotifies(reg, listeners, t, press);
    var mid := Registry(reg.slots[i := Some(pressed)], reg.log + Broadcast(listeners, ButtonPressed(pressed, 7)));
    DrainOne(mid, listeners, t, unpress);
    ButtonEventUpdatesThenNotifies(mid, listeners, t, unpress);
    ReleaseAsWrittenKeepsButton(d.buttons, 7);
  }
}
