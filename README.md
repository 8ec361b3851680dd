# xf86-input-emulated: a verified model of the driver's event path

xf86-input-emulated is an X.Org input driver whose devices are fed by a test
process. The test process writes fixed-size `EmulatedEvent` records into an
"events in" FIFO. The driver reads them and turns each Motion, Proximity, Button, Key, Touch
and gesture record into the matching X server post call; `Unknown` records
and unrecognised tags post nothing, and while the device is off no record
posts anything. A `WaitForSync` record handled while the device is on
raises a pending-sync flag; markers that arrive before the next drain check
collapse into that one flag. Each drain check that finds the flag set clears
it and queues one write of the byte `'s'` on an "events out" FIFO, which the
server runs once it has finished processing the input that came before.

This project models in Dafny the driver's core in `src/xf86emulated.c` and the
wire types in `include/emulated-events.h`:

- `wire_types.dfy` (module `WireTypes`) holds the record tags and their numbering. It also holds the valuator-set record, with its 50-byte mask, and one Dafny constructor per record variant.
- `valuators.dfy` (module `Valuators`) models `xf86emulated_convert_to_valuators`. The server's `ValuatorMask` is a small class, and the conversion is a loop over it.
- `dispatch.dfy` (module `Dispatch`) models the tag switch of `xf86emulated_handle_event` and the per-type handlers. Each handler's output is the X server post operation it performs, with the arguments it passes.
- `framing.dfy` (module `Framing`) models what one read of the events-in channel returns. It also defines which records one pass of the read loop dispatches.
- `driver_spec.dfy` (module `DriverSpec`) holds the device state as a value and one function per operation. It also holds the lemmas about runs of operations: on/off gating, in-order forwarding, the pending-sync flag and its exactly-once acknowledgment. A `HostStep` is one thing the X server does to the device: a `device_control` request, a readable events-in channel, a drained input queue, or a run of its work queue. The read pass and the drain callback happen only while the driver has them registered, that is, between `xf86emulated_on` and `xf86emulated_off`.
- `driver.dfy` (module `Driver`) holds the class `EmulatedDevice`. Its methods update the device in place, as the C code does. `HandleEvent`, the read pass, the drain callback, the work-queue run and the lifecycle hooks are proved to follow the matching function of `DriverSpec`. The per-type handlers are specified by the post operation they log and the mask `Convert` gives. Allocation is specified by the initial state, and option parsing by module `Config`.
- `config.dfy` (module `Config`) models the `EmulatedType` option, the XInput type name and `init_button_map`.
- `wrappers.dfy` holds `Option` and `Result`.

The model reflects the driver's effects on its host as values:

- The operations posted to the X server are a log, `posted`.
- The host's work queue, filled by `QueueWorkProc`, is `workQueue`.
- The bytes written to the events-out channel are `outbound`.

`MAX_VALUATORS` is an X server constant that this source does not define, so it is a parameter. `sizeof(EmulatedEvent)` depends on the compiler ABI, so it is also a parameter, `recordSize`. Doubles are only copied and never computed with, so they are 64-bit patterns.

Where the code and its description differ, this model follows the code. The `!on` test in `xf86emulated_handle_event` comes before the tag switch. So when `handle_event` runs on a device that is off, every record is dropped, `WaitForSync` included (`DriverSpec.GatedWhenOff`). The host normally never reads while the device is off: `xf86emulated_off` removes the descriptor, and records written meanwhile stay in the FIFO until the next read after turn-on. The gate matters only when DEVICE_INIT clears `on` on a device that is still registered. Turning the device off neither clears nor acknowledges a pending sync request; the first drain check after turn-on does (`DriverSpec.PendingSyncSurvivesDisable`).

## Model

| member | source | states |
|---|---|---|
| `WireTypes.BitOfIsShift` | src/xf86emulated.c:437 | the byte `BitIsOn` tests bit `i & 7` of byte `i >> 3` against is `1 << (i & 7)` |
| `WireTypes.TypeOfTag` | include/emulated-events.h:36-47 | a raw tag names an enumerator exactly when it is at most 8, and that enumerator's value is the tag (declaration order, from 0) |
| `WireTypes.TagRoundTrip` | include/emulated-events.h:36-47 | encoding an enumerator and decoding it gives it back; distinct enumerators have distinct values |
| `WireTypes.TagSelectsVariant` | include/emulated-events.h:60-130 | the tag read through the shared leading field selects exactly the variant the record is; only Motion, Proximity, Button and Touch carry a valuator set |
| `Valuators.ValuatorMask.constructor` | src/xf86emulated.c:677 | a fresh server valuator mask holds no slots |
| `Valuators.ValuatorMask.Zero` | src/xf86emulated.c:435 | zeroing the mask unsets every slot |
| `Valuators.ValuatorMask.SetDouble` | src/xf86emulated.c:442 | slot `i` then holds the value with no unaccelerated value; the other slots are unchanged |
| `Valuators.ValuatorMask.SetUnaccelerated` | src/xf86emulated.c:439-440 | slot `i` then holds the value and its unaccelerated value; the other slots are unchanged |
| `Valuators.Limit` | src/xf86emulated.c:436 | the number of slots examined is the smaller of 50 and `MAX_VALUATORS` |
| `Valuators.ConvertPrefixKeys` | src/xf86emulated.c:436-445 | after the loop has examined slots `0..n-1`, the mask holds exactly those of them whose bit is set |
| `Valuators.ConvertPrefixValues` | src/xf86emulated.c:437-443 | every slot the loop has set carries the record's value, plus its unaccelerated value exactly when `has_unaccelerated` is set |
| `Valuators.ConvertSlots` | src/xf86emulated.c:433-446 | the converted mask holds exactly the slots below both capacities whose bit is set; each has `valuators[i]`; each has `unaccelerated[i]` if and only if `has_unaccelerated` is non-zero |
| `Valuators.ConvertIgnoresTrailingMaskBytes` | include/emulated-events.h:51-55 | only mask bytes 0..6 (bits 0..49) of the 50-byte mask ever affect the conversion |
| `Valuators.ConvertToValuators` | src/xf86emulated.c:433-446 | the clear-then-fill loop leaves the mask equal to `Convert` of the record, whose slots `ConvertSlots` describes |
| `Dispatch.Forward` | src/xf86emulated.c:448-544 | a record posts one operation exactly when its tag is in the enumeration and is neither Unknown nor WaitForSync; the operation is of the record's own kind; the pointer-like records post the converted mask; Motion and Button post Absolute if and only if `is_absolute` is set; Key posts `(key_code, is_down)` and no mask; scalar fields pass through |
| `Dispatch.GesturePassThrough` | src/xf86emulated.c:521-544 | a gesture record's post operation carries back every field of the record |
| `Framing.FramingCheck` | src/xf86emulated.c:593-614 | the driver's tests on `read_size` pass exactly for a positive read of whole records; the remainder is the count of trailing bytes; `read_size / sizeof(EmulatedEvent)` is the number of records |
| `Framing.StopsAtFirstFailure` | src/xf86emulated.c:593-612 | a pass ends at the first read that errs, would block, returns 0 or has trailing bytes; the records of every earlier read are dispatched, in order, and none of that read |
| `Framing.AllReadsContinue` | src/xf86emulated.c:614-618 | when every read delivers whole records, all their records are dispatched, in order |
| `Framing.LaterReadsIgnored` | src/xf86emulated.c:590-612 | the reads after the one that ends a pass have no effect on it |
| `DriverSpec.HandleAllAppend` | src/xf86emulated.c:615-617 | handling two runs of records in turn is handling their concatenation |
| `DriverSpec.HandleAllSnoc` | src/xf86emulated.c:615-617 | handling one more record is one more `handle_event` after the others |
| `DriverSpec.GatedWhenOff` | src/xf86emulated.c:549-550 | `handle_event` on a device that is off changes nothing, for any run of records: no operation is posted and the sync flag is untouched, even for WaitForSync |
| `DriverSpec.HandleEventEffect` | src/xf86emulated.c:547-580 | while on, one record posts its operation and `WaitForSync` raises the flag; nothing besides the flag, the valuator mask and the posted log changes |
| `DriverSpec.HandleAllFrame` | src/xf86emulated.c:547-580 | handling records never changes on/off, the registrations, the descriptors, the device type, the work queue or the channel |
| `DriverSpec.HandleAllPosts` | src/xf86emulated.c:552-579 | while on, a run of records posts exactly their operations, in record order; while off it posts nothing |
| `DriverSpec.HandleAllPendingSync` | src/xf86emulated.c:449-456 | after a run, the sync flag is set exactly when it was set before, or the device is on and the run held a WaitForSync |
| `DriverSpec.ForwardedCount` | src/xf86emulated.c:552-579 | each record posts at most one operation; a run whose tags all forward posts exactly one per record |
| `DriverSpec.SyncMarkersCollapse` | src/xf86emulated.c:455 | any number (at least one) of consecutive WaitForSync markers leaves the same state as one |
| `DriverSpec.AckOwedIffMarker` | src/xf86emulated.c:118-138 | after a run, the drain callback queues exactly one write when a sync was pending or a marker came in while on, and none otherwise; the flag is then clear |
| `DriverSpec.DrainIdempotent` | src/xf86emulated.c:126-137 | a drain check right after another one does nothing |
| `DriverSpec.AckExactlyOnce` | src/xf86emulated.c:101-138 | a run of records holding a WaitForSync, on a device that is on and owes nothing, leads to exactly one `'s'` after one drain check and one work run, once all the run's operations are posted; a second drain check and run add nothing |
| `DriverSpec.OffKeepsPendingSync` | src/xf86emulated.c:168-183 | turning off sets `on` false, keeps the sync flag, unregisters a registered device, and is idempotent |
| `DriverSpec.InputReadyEffect` | src/xf86emulated.c:140-146 | while the descriptor is registered, a readable events-in channel on a device that is on posts exactly the dispatched records' operations in order, sets the sync flag exactly when it was set or a marker was read, and changes nothing but the flag, the mask and the log; while unregistered it changes nothing |
| `DriverSpec.UnregisteredStep` | src/xf86emulated.c:168-183 | on a device that is off and unregistered, any host occasion other than DEVICE_ON reads nothing, posts nothing, keeps the sync flag and queues nothing new |
| `DriverSpec.NothingWhileUnregistered` | src/xf86emulated.c:168-183 | from turn-off until the next DEVICE_ON, no record is read or posted, the sync flag is neither raised nor cleared, and no acknowledgment is queued; earlier writes may still run |
| `DriverSpec.PendingSyncSurvivesDisable` | src/xf86emulated.c:148-183 | a sync pending when a registered device is turned off is neither cleared nor acknowledged while off; after turn-on the first drain check queues it, and the next read pass posts what it reads, records written while off included |
| `DriverSpec.RegisteredPreserved` | src/xf86emulated.c:148-183 | the input and drain registrations stay in place exactly while the device is on, through a control request, a run of records, a drain check or a work run, provided DEVICE_INIT only reaches a device that is off (the code's `on = FALSE` at line 386 does not unregister) |
| `DriverSpec.RegisteredAlways` | src/xf86emulated.c:148-183 | through any run of host occasions without DEVICE_INIT, the registrations stay in place exactly while the device is on |
| `Driver.EmulatedDevice.constructor` | src/xf86emulated.c:640-652 | a new device has both channel descriptors -1 and every other field zero, off, empty |
| `Driver.EmulatedDevice.DeviceAlloc` | src/xf86emulated.c:640-652 | no device when the allocation fails; otherwise a device in the initial state |
| `Driver.EmulatedDevice.SetTypeFromOption` | src/xf86emulated.c:731-752 | a recognised `EmulatedType` sets the device type and returns Success; any other value, or no option, returns BadValue and leaves the type alone |
| `Driver.EmulatedDevice.HandleWaitForSync` | src/xf86emulated.c:449-456 | the sync flag is raised |
| `Driver.EmulatedDevice.HandleMotion` | src/xf86emulated.c:459-469 | the mask is refilled from the record and one motion post with the record's mode and that mask is logged |
| `Driver.EmulatedDevice.HandleProximity` | src/xf86emulated.c:472-482 | the mask is refilled and one proximity post with `is_in` and that mask is logged |
| `Driver.EmulatedDevice.HandleButton` | src/xf86emulated.c:485-496 | the mask is refilled and one button post with mode, button, state and that mask is logged |
| `Driver.EmulatedDevice.HandleKey` | src/xf86emulated.c:499-506 | one keyboard post with code and state is logged, and the mask is not touched |
| `Driver.EmulatedDevice.HandleTouch` | src/xf86emulated.c:509-519 | the mask is refilled and one touch post with id, type, flags and that mask is logged |
| `Driver.EmulatedDevice.HandleGestureSwipe` | src/xf86emulated.c:522-531 | one swipe post with every record field is logged |
| `Driver.EmulatedDevice.HandleGesturePinch` | src/xf86emulated.c:534-544 | one pinch post with every record field is logged |
| `Driver.EmulatedDevice.HandleEvent` | src/xf86emulated.c:547-580 | the device changes as `DriverSpec.HandleEvent` says, so every lemma about that function holds of it |
| `Driver.EmulatedDevice.HandleRecords` | src/xf86emulated.c:614-617 | `handle_event` is called on each record of one read exactly once, in order, and the state is what `HandleAll` gives |
| `Driver.EmulatedDevice.ReadInputFromTest` | src/xf86emulated.c:583-619 | called by the host only while the events-in descriptor is registered; a pass performs `ReadsConsumed` reads, calls `handle_event` on exactly the `Dispatched` records in order, and leaves the state `HandleAll` gives |
| `Driver.EmulatedDevice.InputDrainCallback` | src/xf86emulated.c:118-138 | called by the host only while registered, as host step `InputDrained`; when a sync is pending, the flag is cleared and one write to the events-out descriptor is queued; otherwise nothing changes |
| `Driver.EmulatedDevice.InputDrainWrite` | src/xf86emulated.c:101-116 | exactly one `'s'` goes out when the write succeeds, and the work item reports done whether or not it does |
| `Driver.EmulatedDevice.RunNextWorkItem` | src/xf86emulated.c:101-116 | the host runs its oldest work item and drops it; an empty queue runs nothing |
| `Driver.EmulatedDevice.On` | src/xf86emulated.c:148-166 | the device registers for input and drain notifications and is marked on |
| `Driver.EmulatedDevice.Off` | src/xf86emulated.c:168-183 | the registrations are removed only if the device was on; it is then off and its sync flag is kept |
| `Driver.EmulatedDevice.DeviceControl` | src/xf86emulated.c:380-430 | DEVICE_INIT marks the device off, DEVICE_ON and DEVICE_OFF switch it, other modes change nothing, and Success is returned for every mode |
| `Config.ParseEmulatedType` | src/xf86emulated.c:731-752 | a missing option or any value other than the six names fails with BadValue; a recognised value gives the one type with that name |
| `Config.EmulatedTypeRoundTrip` | src/xf86emulated.c:737-748 | the six option names map one to one onto types 1..6 |
| `Config.TypeOptionNameInjective` | src/xf86emulated.c:737-748 | distinct device types have distinct option names |
| `Config.GetTypeName` | src/xf86emulated.c:626-638 | gesture pointer is a touchpad, touch a touchscreen, both plain pointers mice, the proximity pointer a tablet, and the keyboard and any unlisted type a keyboard |
| `Config.PreInitType` | src/xf86emulated.c:731-765 | pre-init ends with the option's type and its type name, or with BadValue when the option is not recognised |
| `Config.InitButtonMap` | src/xf86emulated.c:190-198 | afterwards each entry `i` of the map holds `i`, truncated to an unsigned char |

## Left out

- FIFO and pipe creation, `open`, `close` and `unlink`, the EINTR retry loops and the `goto fail` clean-up in pre-init and `xf86emulated_uninit`: this is operating-system I/O. Pre-init is modelled only for its type selection and type name (`Config.PreInitType`).
- The X server calls themselves are not modelled: the post functions, `InitPointerDeviceStruct`, the XKB set-up, the axis and button label atoms, the option getters, and the capability set-up `xf86emulated_init` runs for each device type. They are foreign library calls. A post appears only as an `Op` entry in the log. DEVICE_INIT is modelled only for the `on = FALSE` it performs.
- `input_lock`, `QueueWorkProc` and the server's input thread are not modelled. The work queue is an ordered list of pending writes, and the host runs it one item at a time (`Driver.EmulatedDevice.RunNextWorkItem`).
- The three registrations `xf86emulated_on` makes are folded into one flag, `listening`. The model does not capture a second registration by a repeated DEVICE_ON.
- The byte layout of a record, its padding, and the reinterpretation of buffer bytes as a union are not modelled, because they depend on the ABI. A read delivers its records as values, plus a number of trailing bytes.
- Doubles have no arithmetic, because the driver only copies them.
- Logging (`xf86IDrvMsg`, `LogMessageVerbSigSafe`) is dropped. Apart from logging, the would-block and the hard-error returns of `read` behave alike and end the pass.
- `Driver.EmulatedDevice.ReadInputFromTest`: when the modelled sequence of read outcomes runs out, the pass stops as if the next read would block. A real pass keeps reading until some read fails.
- `Driver.EmulatedDevice.SetTypeFromOption`: on BadValue the real pre-init frees the device. The model leaves its type unchanged and returns the status.
- `xf86emulated_got_data_to_read` only calls the read loop; it is the host step `InputReady`. `xf86emulated_read_input` is empty and `xf86emulated_destroy` only logs, so neither has a member of its own.
- `valuators_unaccelerated`, `pipe_read_fd`, `pipe_write_fd` and the two FIFO paths are not read by any modelled operation, so they are not fields of the model.
- `valuator_mask_new(6)` takes a size hint that is not modelled: a server mask has room for every slot below `MAX_VALUATORS`.
- `on` is `dev->public.on`, a field of the server's device record rather than of the driver's data. The model keeps it, and the registrations, in `EmulatedDevice` beside the driver's own fields.
- `Driver.EmulatedDevice.constructor` also allocates the valuator mask. `xf86emulated_device_alloc` leaves it NULL, and pre-init creates it later (src/xf86emulated.c:677); a device whose mask allocation failed is not modelled.
- `waiting_for_drain` is an `int` that only ever holds 0 or 1, so it is a boolean here.
