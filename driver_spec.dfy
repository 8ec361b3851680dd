/**
 * The per-device state of the driver as a value, with one function per
 * operation that changes it.  The class in module Driver is proved to follow
 * these functions; the lemmas here state what the driver promises about
 * sequences of operations: on/off gating, in-order forwarding, the pending-sync
 * flag and its exactly-once acknowledgment.
 *
 * Besides the driver's own fields the state holds three effects on the host:
 * the operations posted to the X server, the host work queue filled by
 * `QueueWorkProc`, and the bytes written to the events-out channel.
 */
module DriverSpec {

  import opened WireTypes
  import opened Wrappers
  import opened Valuators
  import opened Dispatch
  import opened Framing

  /** The X server's `device_control` modes. */
  const DEVICE_INIT: int := 0
  const DEVICE_ON: int := 1
  const DEVICE_OFF: int := 2
  const DEVICE_CLOSE: int := 3

  /** A queued call of `xf86emulated_input_drain_write` with its descriptor closure. */
  datatype WorkItem = DrainWrite(fd: int)

  datatype DeviceState = DeviceState(
    on: bool,                  // dev->public.on
    listening: bool,           // notify fd, enabled device and drain callback registered
    waitingForDrain: bool,     // the pending-sync flag
    eventsInFd: int,
    eventsOutFd: int,
    deviceType: uint32,
    mask: ValuatorMap,         // driver_data->valuators
    posted: seq<Op>,           // operations posted to the X server, oldest first
    workQueue: seq<WorkItem>,  // host work queue, oldest first
    outbound: seq<char>)       // bytes written to the events-out channel

  /** `xf86emulated_handle_event`: nothing at all while off, then the tag switch. */
  function HandleEvent(s: DeviceState, e: Event, maxValuators: nat): DeviceState
  {
    if !s.on then s
    else if e.WaitForSync? then s.(waitingForDrain := true)
    else match Forward(e, maxValuators)
      case None => s
      case Some(op) =>
        s.(mask := if CarriesValuators(e) then Convert(e.valuators, maxValuators) else s.mask,
           posted := s.posted + [op])
  }

  /** `handle_event` on each record in turn. */
  function HandleAll(s: DeviceState, es: seq<Event>, maxValuators: nat): DeviceState
    decreases |es|
  {
    if es == [] then s else HandleAll(HandleEvent(s, es[0], maxValuators), es[1..], maxValuators)
  }

  /** The operations the records post, in record order, when the device is on. */
  function Forwarded(es: seq<Event>, maxValuators: nat): seq<Op>
  {
    if es == [] then [] else OpsOf(es[0], maxValuators) + Forwarded(es[1..], maxValuators)
  }

  /** The operations one record posts when the device is on: none or one. */
  function OpsOf(e: Event, maxValuators: nat): seq<Op>
  {
    match Forward(e, maxValuators)
    case None => []
    case Some(op) => [op]
  }

  /**
   * `xf86emulated_input_drain_callback`: when a sync is pending, clear the flag
   * and queue one write of the acknowledgment; otherwise nothing.
   */
  function DrainCallback(s: DeviceState): DeviceState
  {
    if s.waitingForDrain then
      s.(waitingForDrain := false, workQueue := s.workQueue + [DrainWrite(s.eventsOutFd)])
    else s
  }

  /**
   * The host running its oldest work item.  `xf86emulated_input_drain_write`
   * writes one `'s'` (the write may fail) and always returns TRUE, so the host
   * drops the item after this one run.
   */
  function RunNextWork(s: DeviceState, writeOk: bool): DeviceState
  {
    if s.workQueue == [] then s
    else
      s.(outbound := if writeOk then s.outbound + [SYNC_RESPONSE] else s.outbound,
         workQueue := s.workQueue[1..])
  }

  /** `xf86emulated_on`: register for input and drain notifications, then mark on. */
  function On(s: DeviceState): DeviceState
  {
    s.(listening := true, on := true)
  }

  /** `xf86emulated_off`: unregister only if on, then mark off; the sync flag stays. */
  function Off(s: DeviceState): DeviceState
  {
    s.(listening := if s.on then false else s.listening, on := false)
  }

  /**
   * `xf86emulated_device_control`.  DEVICE_INIT marks the device off (its
   * capability set-up is an X server matter); DEVICE_CLOSE only logs; any
   * other mode matches no case.
   */
  function Control(s: DeviceState, mode: int): DeviceState
  {
    if mode == DEVICE_INIT then s.(on := false)
    else if mode == DEVICE_ON then On(s)
    else if mode == DEVICE_OFF then Off(s)
    else s
  }

  /** The registrations are in place exactly while the device is on. */
  predicate Registered(s: DeviceState)
  {
    s.listening == s.on
  }

  lemma {:induction false} HandleAllAppend(s: DeviceState, a: seq<Event>, b: seq<Event>, maxValuators: nat)
    ensures HandleAll(s, a + b, maxValuators) ==
            HandleAll(HandleAll(s, a, maxValuators), b, maxValuators)
    decreases |a|
  {
    if a != [] {
      var s1 := HandleEvent(s, a[0], maxValuators);
      assert (a + b)[0] == a[0];
      assert (a + b)[1..] == a[1..] + b;
      assert HandleAll(s, a + b, maxValuators) == HandleAll(s1, a[1..] + b, maxValuators);
      assert HandleAll(s, a, maxValuators) == HandleAll(s1, a[1..], maxValuators);
      HandleAllAppend(s1, a[1..], b, maxValuators);
    } else {
      assert a + b == b;
    }
  }

  /** Handling one more record is one more `handle_event` after the others. */
  lemma HandleAllSnoc(s: DeviceState, es: seq<Event>, e: Event, maxValuators: nat)
    ensures HandleAll(s, es + [e], maxValuators) ==
            HandleEvent(HandleAll(s, es, maxValuators), e, maxValuators)
  {
    HandleAllAppend(s, es, [e], maxValuators);
    assert [e][1..] == [];
  }

  /**
   * While the device is off, handling any records changes nothing: no
   * operation is posted and the sync flag is not touched, not even by
   * `WaitForSync`.
   */
  lemma {:induction false} GatedWhenOff(s: DeviceState, es: seq<Event>, maxValuators: nat)
    requires !s.on
    ensures HandleAll(s, es, maxValuators) == s
  {
    if es != [] {
      GatedWhenOff(s, es[1..], maxValuators);
    }
  }

  /**
   * What handling one record does: while on, it posts the record's operation
   * and sets the sync flag on `WaitForSync`; nothing besides the flag, the
   * valuator mask and the posted operations changes.
   */
  lemma HandleEventEffect(s: DeviceState, e: Event, maxValuators: nat)
    ensures var t := HandleEvent(s, e, maxValuators);
      && t.(waitingForDrain := s.waitingForDrain, mask := s.mask, posted := s.posted) == s
      && t.posted == s.posted + (if s.on then OpsOf(e, maxValuators) else [])
      && t.waitingForDrain == (s.waitingForDrain || (s.on && e == WaitForSync))
  {
  }

  /**
   * Handling a run of records leaves on/off state, the registrations, the
   * descriptors, the device type, the work queue and the channel untouched.
   */
  lemma {:induction false} HandleAllFrame(s: DeviceState, es: seq<Event>, maxValuators: nat)
    ensures var t := HandleAll(s, es, maxValuators);
      t.(waitingForDrain := s.waitingForDrain, mask := s.mask, posted := s.posted) == s
    decreases |es|
  {
    if es != [] {
      HandleEventEffect(s, es[0], maxValuators);
      HandleAllFrame(HandleEvent(s, es[0], maxValuators), es[1..], maxValuators);
    }
  }

  /**
   * While on, a run of records posts exactly the records' operations, in
   * record order; while off it posts nothing.
   */
  lemma {:induction false} HandleAllPosts(s: DeviceState, es: seq<Event>, maxValuators: nat)
    ensures HandleAll(s, es, maxValuators).posted ==
            s.posted + (if s.on then Forwarded(es, maxValuators) else [])
    decreases |es|
  {
    if es != [] {
      var s1 := HandleEvent(s, es[0], maxValuators);
      HandleEventEffect(s, es[0], maxValuators);
      HandleAllPosts(s1, es[1..], maxValuators);
    }
  }

  /**
   * After a run of records the sync flag is set exactly when it was set
   * before or the device is on and a `WaitForSync` was among the records.
   */
  lemma {:induction false} HandleAllPendingSync(s: DeviceState, es: seq<Event>, maxValuators: nat)
    ensures HandleAll(s, es, maxValuators).waitingForDrain ==
            (s.waitingForDrain || (s.on && WaitForSync in es))
    decreases |es|
  {
    if es != [] {
      var s1 := HandleEvent(s, es[0], maxValuators);
      HandleEventEffect(s, es[0], maxValuators);
      HandleAllPendingSync(s1, es[1..], maxValuators);
      assert es == [es[0]] + es[1..];
      assert WaitForSync in es <==> es[0] == WaitForSync || WaitForSync in es[1..];
    }
  }

  /**
   * Each record posts at most one operation, and a run of records whose tags
   * all forward posts exactly one operation per record.
   */
  lemma {:induction false} ForwardedCount(es: seq<Event>, maxValuators: nat)
    ensures |Forwarded(es, maxValuators)| <= |es|
    ensures (forall i :: 0 <= i < |es| ==> TypeOf(es[i]).Some? && Forwards(TypeOf(es[i]).value))
            ==> |Forwarded(es, maxValuators)| == |es|
  {
    if es != [] {
      ForwardedCount(es[1..], maxValuators);
      assert forall i :: 0 <= i < |es| - 1 ==> es[1..][i] == es[i + 1];
    }
  }

  /**
   * Any number of consecutive `WaitForSync` markers sets one flag: handling
   * K >= 1 of them leaves the same state as handling one.
   */
  lemma {:induction false} SyncMarkersCollapse(s: DeviceState, k: nat, maxValuators: nat)
    requires k >= 1
    ensures HandleAll(s, seq(k, _ => WaitForSync), maxValuators) ==
            HandleEvent(s, WaitForSync, maxValuators)
  {
    var es := seq(k, _ => WaitForSync);
    if k == 1 {
      assert es == [WaitForSync];
    } else {
      var shorter := seq(k - 1, _ => WaitForSync);
      assert es == shorter + [WaitForSync];
      HandleAllSnoc(s, shorter, WaitForSync, maxValuators);
      SyncMarkersCollapse(s, k - 1, maxValuators);
    }
  }

  /**
   * The drain check after a run of records owes exactly one acknowledgment
   * when a sync was pending or a marker came in while on, and none otherwise;
   * afterwards the flag is clear.
   */
  lemma AckOwedIffMarker(s: DeviceState, es: seq<Event>, maxValuators: nat)
    ensures var t := DrainCallback(HandleAll(s, es, maxValuators));
      && !t.waitingForDrain
      && t.workQueue == s.workQueue +
           (if s.waitingForDrain || (s.on && WaitForSync in es)
            then [DrainWrite(s.eventsOutFd)] else [])
  {
    HandleAllFrame(s, es, maxValuators);
    HandleAllPosts(s, es, maxValuators);
    HandleAllPendingSync(s, es, maxValuators);
  }

  /** A drain check right after another one does nothing. */
  lemma DrainIdempotent(s: DeviceState)
    ensures DrainCallback(DrainCallback(s)) == DrainCallback(s)
  {
  }

  /**
   * The whole handshake: with the device on and nothing pending, a run of
   * records containing a `WaitForSync`, one drain check and one run of the
   * host work queue write exactly one `'s'` (when the write succeeds), after
   * all the run's operations have been posted; nothing further is owed.
   */
  lemma AckExactlyOnce(s: DeviceState, es: seq<Event>, maxValuators: nat)
    requires s.on && !s.waitingForDrain && s.workQueue == []
    requires WaitForSync in es
    ensures var t := RunNextWork(DrainCallback(HandleAll(s, es, maxValuators)), true);
      && t.outbound == s.outbound + [SYNC_RESPONSE]
      && t.posted == s.posted + Forwarded(es, maxValuators)
      && t.workQueue == [] && !t.waitingForDrain
      && RunNextWork(DrainCallback(t), true) == t
  {
    HandleAllFrame(s, es, maxValuators);
    HandleAllPosts(s, es, maxValuators);
    HandleAllPendingSync(s, es, maxValuators);
  }

  /** Turning off keeps a pending sync request, and turning off twice is turning off once. */
  lemma OffKeepsPendingSync(s: DeviceState)
    ensures !Off(s).on && Off(s).waitingForDrain == s.waitingForDrain
    ensures Off(Off(s)) == Off(s)
    ensures Registered(s) ==> !Off(s).listening
  {
  }

  /**
   * The registrations stay in step with the on flag through every operation,
   * given that DEVICE_INIT is only sent to a device that is not on.
   */
  lemma RegisteredPreserved(s: DeviceState, es: seq<Event>, mode: int, writeOk: bool, maxValuators: nat)
    requires Registered(s)
    requires mode == DEVICE_INIT ==> !s.on
    ensures Registered(Control(s, mode))
    ensures Registered(HandleAll(s, es, maxValuators))
    ensures Registered(DrainCallback(s)) && Registered(RunNextWork(s, writeOk))
  {
    HandleAllFrame(s, es, maxValuators);
    HandleAllPosts(s, es, maxValuators);
    HandleAllPendingSync(s, es, maxValuators);
  }

  /**
   * What the X server does to a device, one occasion at a time.  The read
   * pass runs when the events-in descriptor is readable and the drain
   * callback when input processing has drained, but only while the driver
   * has them registered (`SetNotifyFd` and `xf86AddInputEventDrainCallback`
   * in `xf86emulated_on`, removed again in `xf86emulated_off`); the host's
   * work queue runs whatever was queued, registered or not.
   */
  datatype HostStep =
    | ControlRequest(mode: int)              // device_control
    | InputReady(outcomes: seq<ReadResult>)  // the events-in channel is readable
    | InputDrained                           // input processing has drained
    | WorkRun(writeOk: bool)                 // the host runs its oldest work item

  function Step(s: DeviceState, step: HostStep, maxValuators: nat): DeviceState
  {
    match step
    case ControlRequest(mode) => Control(s, mode)
    case InputReady(outcomes) =>
      if s.listening then HandleAll(s, Dispatched(outcomes), maxValuators) else s
    case InputDrained => if s.listening then DrainCallback(s) else s
    case WorkRun(writeOk) => RunNextWork(s, writeOk)
  }

  function Steps(s: DeviceState, steps: seq<HostStep>, maxValuators: nat): DeviceState
    decreases |steps|
  {
    if steps == [] then s else Steps(Step(s, steps[0], maxValuators), steps[1..], maxValuators)
  }

  /**
   * While registered, a readable events-in channel runs one read pass: a
   * device that is on posts exactly the operations of the dispatched
   * records, in order, and raises the sync flag when a marker is among
   * them; nothing but the flag, the mask and the log changes. While
   * unregistered nothing is read and nothing changes.
   */
  lemma InputReadyEffect(s: DeviceState, outcomes: seq<ReadResult>, maxValuators: nat)
    ensures var t := Step(s, InputReady(outcomes), maxValuators);
      var es := Dispatched(outcomes);
      && (s.listening ==>
            && t.posted == s.posted + (if s.on then Forwarded(es, maxValuators) else [])
            && t.waitingForDrain == (s.waitingForDrain || (s.on && WaitForSync in es))
            && t.(waitingForDrain := s.waitingForDrain, mask := s.mask, posted := s.posted) == s)
      && (!s.listening ==> t == s)
  {
    if s.listening {
      var es := Dispatched(outcomes);
      HandleAllPosts(s, es, maxValuators);
      HandleAllPendingSync(s, es, maxValuators);
      HandleAllFrame(s, es, maxValuators);
    }
  }

  /** `t` is what is left of queue `q` once some of its oldest items have run. */
  predicate QueueTail(t: seq<WorkItem>, q: seq<WorkItem>)
  {
    |t| <= |q| && t == q[|q| - |t|..]
  }

  /** A tail of a tail of a queue is a tail of that queue. */
  lemma QueueTailTrans(u: seq<WorkItem>, t: seq<WorkItem>, q: seq<WorkItem>)
    requires QueueTail(u, t) && QueueTail(t, q)
    ensures QueueTail(u, q)
  {
    assert q[|q| - |t|..][|t| - |u|..] == q[|q| - |u|..];
  }

  /** One host occasion other than DEVICE_ON, on a device that is off and unregistered. */
  lemma UnregisteredStep(s: DeviceState, step: HostStep, maxValuators: nat)
    requires !s.on && !s.listening && step != ControlRequest(DEVICE_ON)
    ensures var t := Step(s, step, maxValuators);
      && !t.on && !t.listening
      && t.waitingForDrain == s.waitingForDrain
      && t.posted == s.posted && t.mask == s.mask
      && t.eventsOutFd == s.eventsOutFd
      && QueueTail(t.workQueue, s.workQueue)
  {
    match step
    case ControlRequest(mode) =>
      assert Step(s, step, maxValuators) == Control(s, mode);
    case InputReady(_) =>
      assert Step(s, step, maxValuators) == s;
    case InputDrained =>
      assert Step(s, step, maxValuators) == s;
    case WorkRun(writeOk) =>
      assert Step(s, step, maxValuators) == RunNextWork(s, writeOk);
  }

  /**
   * While the device is off and unregistered, and nothing turns it back on,
   * no record is read or posted, the pending-sync flag is neither raised nor
   * cleared, and nothing is added to the work queue: writes queued earlier may
   * still run, but no acknowledgment is queued.
   */
  lemma {:induction false} NothingWhileUnregistered(s: DeviceState, steps: seq<HostStep>, maxValuators: nat)
    requires !s.on && !s.listening
    requires forall i :: 0 <= i < |steps| ==> steps[i] != ControlRequest(DEVICE_ON)
    ensures var t := Steps(s, steps, maxValuators);
      && !t.on && !t.listening
      && t.waitingForDrain == s.waitingForDrain
      && t.posted == s.posted && t.mask == s.mask
      && t.eventsOutFd == s.eventsOutFd
      && QueueTail(t.workQueue, s.workQueue)
    decreases |steps|
  {
    if steps != [] {
      var s1 := Step(s, steps[0], maxValuators);
      UnregisteredStep(s, steps[0], maxValuators);
      assert forall i :: 0 <= i < |steps| - 1 ==> steps[1..][i] == steps[i + 1];
      NothingWhileUnregistered(s1, steps[1..], maxValuators);
      QueueTailTrans(Steps(s1, steps[1..], maxValuators).workQueue, s1.workQueue, s.workQueue);
    } else {
      assert s.workQueue[|s.workQueue| - |s.workQueue|..] == s.workQueue;
    }
  }

  /**
   * A sync request pending when a registered device is turned off is
   * neither dropped nor acknowledged while the device stays off; once it is
   * turned back on, the first drain check queues the acknowledgment, and the
   * next read pass posts what it reads, records written while the device was
   * off included.
   */
  lemma PendingSyncSurvivesDisable(s: DeviceState, steps: seq<HostStep>, outcomes: seq<ReadResult>,
                                   maxValuators: nat)
    requires Registered(s) && s.waitingForDrain
    requires forall i :: 0 <= i < |steps| ==> steps[i] != ControlRequest(DEVICE_ON)
    ensures var off := Steps(Step(s, ControlRequest(DEVICE_OFF), maxValuators), steps, maxValuators);
      var back := Step(off, ControlRequest(DEVICE_ON), maxValuators);
      && off.waitingForDrain && QueueTail(off.workQueue, s.workQueue)
      && Step(back, InputDrained, maxValuators).workQueue ==
           off.workQueue + [DrainWrite(s.eventsOutFd)]
      && !Step(back, InputDrained, maxValuators).waitingForDrain
      && Step(back, InputReady(outcomes), maxValuators).posted ==
           s.posted + Forwarded(Dispatched(outcomes), maxValuators)
  {
    assert Step(s, ControlRequest(DEVICE_OFF), maxValuators) == Off(s);
    NothingWhileUnregistered(Off(s), steps, maxValuators);
    var off := Steps(Off(s), steps, maxValuators);
    var back := On(off);
    assert Step(off, ControlRequest(DEVICE_ON), maxValuators) == back;
    assert Step(back, InputDrained, maxValuators) == DrainCallback(back);
    assert Step(back, InputReady(outcomes), maxValuators) ==
      HandleAll(back, Dispatched(outcomes), maxValuators);
    HandleAllPosts(back, Dispatched(outcomes), maxValuators);
  }

  /**
   * The registrations stay in step with the on flag through any run of host
   * occasions that does not send DEVICE_INIT.
   */
  lemma {:induction false} RegisteredAlways(s: DeviceState, steps: seq<HostStep>, maxValuators: nat)
    requires Registered(s)
    requires forall i :: 0 <= i < |steps| ==> steps[i] != ControlRequest(DEVICE_INIT)
    ensures Registered(Steps(s, steps, maxValuators))
    decreases |steps|
  {
    if steps != [] {
      var s1 := Step(s, steps[0], maxValuators);
      RegisteredPreserved(s, Dispatched(if steps[0].InputReady? then steps[0].outcomes else []),
                          if steps[0].ControlRequest? then steps[0].mode else DEVICE_CLOSE,
                          steps[0].WorkRun? && steps[0].writeOk, maxValuators);
      assert Registered(s1);
      assert forall i :: 0 <= i < |steps| - 1 ==> steps[1..][i] == steps[i + 1];
      RegisteredAlways(s1, steps[1..], maxValuators);
    }
  }
}
