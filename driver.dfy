/**
 * The driver's per-device object and the code that updates it in place: the
 * event handlers, the read loop, the sync/drain handshake and the lifecycle
 * hooks.  `HandleEvent`, the read pass, the drain callback, the work-queue
 * run and the lifecycle hooks are proved to change the object as the matching
 * function of module DriverSpec says, so the lemmas proved there hold of the
 * object; the handlers, allocation and option parsing are specified directly
 * by the operations they post, the initial state and module Config.
 *
 * The object also carries the host effects the driver causes (posted
 * operations, the host work queue, bytes written to the events-out channel);
 * `handled` records every call of `handle_event` so that the read loop's
 * dispatch order can be stated.
 */
module Driver {

  import opened WireTypes
  import opened Wrappers
  import opened Valuators
  import opened Dispatch
  import opened Framing
  import opened DriverSpec
  import Config

  class EmulatedDevice {
    var on: bool
    var listening: bool
    var waitingForDrain: bool
    var eventsInFd: int
    var eventsOutFd: int
    var deviceType: uint32
    /** `driver_data->valuators`, refilled for every pointer-like record. */
    const valuators: ValuatorMask
    /** The X server's `MAX_VALUATORS`. */
    const maxValuators: nat
    var posted: seq<Op>
    var workQueue: seq<WorkItem>
    var outbound: seq<char>
    ghost var handled: seq<Event>

    function State(): DeviceState
      reads this, valuators
    {
      DeviceState(on, listening, waitingForDrain, eventsInFd, eventsOutFd, deviceType,
                  valuators.entries, posted, workQueue, outbound)
    }

    /**
     * `xf86emulated_device_alloc` once `calloc` has succeeded: every field
     * zero except the two channel descriptors, which are -1.
     */
    constructor (maxValuators: nat)
      ensures State() == DeviceState(false, false, false, -1, -1, 0, map[], [], [], [])
      ensures this.maxValuators == maxValuators && handled == []
      ensures fresh(valuators)
    {
      on, listening, waitingForDrain := false, false, false;
      eventsInFd, eventsOutFd := -1, -1;
      deviceType := 0;
      valuators := new ValuatorMask();
      this.maxValuators := maxValuators;
      posted, workQueue, outbound := [], [], [];
      handled := [];
    }

    /** `xf86emulated_device_alloc`: no device when the allocation fails. */
    static method DeviceAlloc(maxValuators: nat, allocOk: bool) returns (d: EmulatedDevice?)
      ensures d == null <==> !allocOk
      ensures d != null ==> fresh(d) && fresh(d.valuators) && d.maxValuators == maxValuators
      ensures d != null ==> d.handled == []
      ensures d != null ==> d.State() == DeviceState(false, false, false, -1, -1, 0, map[], [], [], [])
    {
      if !allocOk {
        return null;
      }
      d := new EmulatedDevice(maxValuators);
    }

    /** The `EmulatedType` step of pre-init: the type is stored only when recognised. */
    method SetTypeFromOption(option: Option<string>) returns (status: Config.Status)
      modifies this`deviceType
      ensures status == if Config.ParseEmulatedType(option).Ok? then Config.Success
                        else Config.BadValue
      ensures Config.ParseEmulatedType(option).Ok? ==>
        deviceType == Config.ParseEmulatedType(option).value
      ensures Config.ParseEmulatedType(option).Err? ==> deviceType == old(deviceType)
    {
      var r := Config.ParseEmulatedType(option);
      if r.Err? {
        return Config.BadValue;
      }
      deviceType := r.value;
      status := Config.Success;
    }

    /** `xf86emulated_handle_wait_for_sync`: raise the pending-sync flag. */
    method HandleWaitForSync()
      modifies this`waitingForDrain
      ensures waitingForDrain
    {
      waitingForDrain := true;
    }

    method HandleMotion(isAbsolute: int32, v: ValuatorData)
      modifies this`posted, valuators
      ensures valuators.entries == Convert(v, maxValuators)
      ensures posted == old(posted) + [PostMotion(ModeOf(isAbsolute), Convert(v, maxValuators))]
    {
      ConvertToValuators(v, valuators, maxValuators);
      posted := posted + [PostMotion(if isAbsolute != 0 then Absolute else Relative, valuators.entries)];
    }

    method HandleProximity(isIn: int32, v: ValuatorData)
      modifies this`posted, valuators
      ensures valuators.entries == Convert(v, maxValuators)
      ensures posted == old(posted) + [PostProximity(isIn, Convert(v, maxValuators))]
    {
      ConvertToValuators(v, valuators, maxValuators);
      posted := posted + [PostProximity(isIn, valuators.entries)];
    }

    method HandleButton(isAbsolute: int32, button: int32, isDown: int32, v: ValuatorData)
      modifies this`posted, valuators
      ensures valuators.entries == Convert(v, maxValuators)
      ensures posted == old(posted) +
        [PostButton(ModeOf(isAbsolute), button, isDown, Convert(v, maxValuators))]
    {
      ConvertToValuators(v, valuators, maxValuators);
      posted := posted +
        [PostButton(if isAbsolute != 0 then Absolute else Relative, button, isDown, valuators.entries)];
    }

    /** Key records post their code and state; the valuator mask is not touched. */
    method HandleKey(keyCode: int32, isDown: int32)
      modifies this`posted
      ensures posted == old(posted) + [PostKeyboard(keyCode, isDown)]
    {
      posted := posted + [PostKeyboard(keyCode, isDown)];
    }

    method HandleTouch(touchId: uint32, touchType: uint16, flags: uint32, v: ValuatorData)
      modifies this`posted, valuators
      ensures valuators.entries == Convert(v, maxValuators)
      ensures posted == old(posted) +
        [PostTouch(touchId, touchType, flags, Convert(v, maxValuators))]
    {
      ConvertToValuators(v, valuators, maxValuators);
      posted := posted + [PostTouch(touchId, touchType, flags, valuators.entries)];
    }

    method HandleGestureSwipe(gestureType: uint16, numTouches: uint16, flags: uint32,
                              dx: Double, dy: Double, ux: Double, uy: Double)
      modifies this`posted
      ensures posted == old(posted) +
        [PostGestureSwipe(gestureType, numTouches, flags, dx, dy, ux, uy)]
    {
      posted := posted + [PostGestureSwipe(gestureType, numTouches, flags, dx, dy, ux, uy)];
    }

    method HandleGesturePinch(gestureType: uint16, numTouches: uint16, flags: uint32,
                              dx: Double, dy: Double, ux: Double, uy: Double,
                              scale: Double, angle: Double)
      modifies this`posted
      ensures posted == old(posted) +
        [PostGesturePinch(gestureType, numTouches, flags, dx, dy, ux, uy, scale, angle)]
    {
      posted := posted +
        [PostGesturePinch(gestureType, numTouches, flags, dx, dy, ux, uy, scale, angle)];
    }

    /**
     * `xf86emulated_handle_event`: while the device is off nothing happens
     * (not even for `WaitForSync`); otherwise the record's tag picks its
     * handler.
     */
    method HandleEvent(e: Event)
      modifies this, valuators
      ensures State() == DriverSpec.HandleEvent(old(State()), e, maxValuators)
      ensures handled == old(handled) + [e]
    {
      handled := handled + [e];
      if !on {
        return;
      }
      ghost var s0 := State();
      assert DriverSpec.HandleEvent(s0, e, maxValuators) ==
        if e.WaitForSync? then s0.(waitingForDrain := true)
        else match Forward(e, maxValuators)
          case None => s0
          case Some(op) =>
            s0.(mask := if CarriesValuators(e) then Convert(e.valuators, maxValuators) else s0.mask,
                posted := s0.posted + [op]);
      match e
      case Unknown =>
      case WaitForSync => HandleWaitForSync();
      case Motion(isAbsolute, v) => HandleMotion(isAbsolute, v);
      case Proximity(isIn, v) => HandleProximity(isIn, v);
      case Button(isAbsolute, button, isDown, v) => HandleButton(isAbsolute, button, isDown, v);
      case Key(keyCode, isDown) => HandleKey(keyCode, isDown);
      case Touch(touchId, touchType, flags, v) => HandleTouch(touchId, touchType, flags, v);
      case GesturePinch(gt, n, flags, dx, dy, ux, uy, scale, angle) =>
        HandleGesturePinch(gt, n, flags, dx, dy, ux, uy, scale, angle);
      case GestureSwipe(gt, n, flags, dx, dy, ux, uy) =>
        HandleGestureSwipe(gt, n, flags, dx, dy, ux, uy);
      case Unrecognized(_) =>
    }

    /**
     * The inner loop of the read pass: `handle_event` on each record of one
     * read, in order.
     */
    method HandleRecords(records: seq<Event>)
      modifies this, valuators
      ensures handled == old(handled) + records
      ensures State() == HandleAll(old(State()), records, maxValuators)
    {
      var i := 0;
      while i < |records|
        invariant i <= |records|
        invariant handled == old(handled) + records[..i]
        invariant State() == HandleAll(old(State()), records[..i], maxValuators)
      {
        HandleEvent(records[i]);
        HandleAllSnoc(old(State()), records[..i], records[i], maxValuators);
        assert records[..i + 1] == records[..i] + [records[i]];
        i := i + 1;
      }
      assert records[..i] == records;
    }

    /**
     * `xf86emulated_read_input_from_test`: read until a read fails, would
     * block, sees end of stream or returns a byte count that is not a whole
     * number of records; hand every record of each whole-record read to
     * `handle_event`, in order.  The host calls it only while the events-in
     * descriptor is registered, which `xf86emulated_on` does; it is then the
     * host step `InputReady` (`DriverSpec.InputReadyEffect`).
     */
    method ReadInputFromTest(outcomes: seq<ReadResult>, recordSize: nat) returns (consumed: nat)
      requires listening
      requires recordSize > 0
      requires forall j :: 0 <= j < |outcomes| ==> ValidRead(outcomes[j], recordSize)
      modifies this, valuators
      ensures consumed == ReadsConsumed(outcomes)
      ensures handled == old(handled) + Dispatched(outcomes)
      ensures State() == HandleAll(old(State()), Dispatched(outcomes), maxValuators)
    {
      consumed := 0;
      while consumed < |outcomes|
        invariant consumed <= |outcomes|
        invariant forall j :: 0 <= j < consumed ==> Continues(outcomes[j])
        invariant handled == old(handled) + Flatten(outcomes[..consumed])
        invariant State() == HandleAll(old(State()), Flatten(outcomes[..consumed]), maxValuators)
      {
        var r := outcomes[consumed];
        var readSize := ReadSize(r, recordSize);
        FramingCheck(r, recordSize);
        if readSize < 0 || readSize == 0 || readSize % recordSize != 0 {
          // would block, a hard error, end of stream or a partial record: the pass ends
          StopsAtFirstFailure(outcomes, consumed);
          return consumed + 1;
        }
        var eventsCount := readSize / recordSize;
        ghost var before := Flatten(outcomes[..consumed]);
        HandleRecords(r.records[..eventsCount]);
        assert r.records[..eventsCount] == RecordsOf(r);
        HandleAllAppend(old(State()), before, RecordsOf(r), maxValuators);
        FlattenSnoc(outcomes[..consumed], r);
        assert outcomes[..consumed + 1] == outcomes[..consumed] + [r];
        consumed := consumed + 1;
      }
      assert outcomes[..consumed] == outcomes;
      AllReadsContinue(outcomes);
    }

    /**
     * `xf86emulated_input_drain_callback`: when a sync is pending, clear the
     * flag and queue one acknowledgment write on the events-out descriptor.
     * The host calls it only while it is registered, between on and off.
     */
    method InputDrainCallback()
      requires listening
      modifies this`waitingForDrain, this`workQueue
      ensures State() == DrainCallback(old(State()))
      ensures State() == Step(old(State()), InputDrained, maxValuators)
    {
      if waitingForDrain {
        waitingForDrain := false;
        workQueue := workQueue + [DrainWrite(eventsOutFd)];
      }
    }

    /**
     * `xf86emulated_input_drain_write`: write the one byte `'s'`; a failed
     * write (the producer gone, the descriptor closed) is ignored, and the
     * work item reports itself done either way.
     */
    method InputDrainWrite(fd: int, writeOk: bool) returns (done: bool)
      modifies this`outbound
      ensures done
      ensures outbound == if writeOk then old(outbound) + [SYNC_RESPONSE] else old(outbound)
    {
      if writeOk {
        outbound := outbound + [SYNC_RESPONSE];
      }
      return true;
    }

    /**
     * The host running its oldest queued work item and dropping it once it
     * reports itself done.
     */
    method RunNextWorkItem(writeOk: bool) returns (ran: bool)
      modifies this`workQueue, this`outbound
      ensures ran <==> old(workQueue) != []
      ensures State() == RunNextWork(old(State()), writeOk)
    {
      if workQueue == [] {
        return false;
      }
      var done := InputDrainWrite(workQueue[0].fd, writeOk);
      if done {
        workQueue := workQueue[1..];
      }
      ran := true;
    }

    /** `xf86emulated_on`. */
    method On()
      modifies this`on, this`listening
      ensures State() == DriverSpec.On(old(State()))
    {
      listening := true;
      on := true;
    }

    /** `xf86emulated_off`: the registrations are removed only if the device was on. */
    method Off()
      modifies this`on, this`listening
      ensures State() == DriverSpec.Off(old(State()))
    {
      if on {
        listening := false;
      }
      on := false;
    }

    /** `xf86emulated_device_control`: always reports Success. */
    method DeviceControl(mode: int) returns (status: Config.Status)
      modifies this`on, this`listening
      ensures status == Config.Success
      ensures State() == Control(old(State()), mode)
    {
      if mode == DEVICE_INIT {
        on := false;
      } else if mode == DEVICE_ON {
        On();
      } else if mode == DEVICE_OFF {
        Off();
      } else if mode == DEVICE_CLOSE {
        // xf86emulated_destroy only logs
      }
      return Config.Success;
    }
  }
}
