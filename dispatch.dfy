/**
 * The tag switch of `xf86emulated_handle_event` and the per-type handlers:
 * which X server post operation a record becomes.  The posts themselves
 * (`xf86PostMotionEventM` and friends) are server calls; an `Op` records
 * one of them with the arguments the driver passes.
 */
module Dispatch {

  import opened WireTypes
  import opened Wrappers
  import opened Valuators

  /** The server's `Absolute` / `Relative` mode argument. */
  datatype Mode = Absolute | Relative

  /** One post operation handed to the X server, with its arguments. */
  datatype Op =
    | PostMotion(mode: Mode, mask: ValuatorMap)
    | PostProximity(isIn: int32, mask: ValuatorMap)
    | PostButton(mode: Mode, button: int32, isDown: int32, mask: ValuatorMap)
    | PostKeyboard(keyCode: int32, isDown: int32)
    | PostTouch(touchId: uint32, touchType: uint16, flags: uint32, mask: ValuatorMap)
    | PostGestureSwipe(gestureType: uint16, numTouches: uint16, flags: uint32,
                       deltaX: Double, deltaY: Double,
                       deltaUnaccelX: Double, deltaUnaccelY: Double)
    | PostGesturePinch(gestureType: uint16, numTouches: uint16, flags: uint32,
                       deltaX: Double, deltaY: Double,
                       deltaUnaccelX: Double, deltaUnaccelY: Double,
                       scale: Double, deltaAngle: Double)

  /** `is_absolute ? Absolute : Relative`. */
  function ModeOf(isAbsolute: int32): (m: Mode)
    ensures m == Absolute <==> isAbsolute != 0
  {
    if isAbsolute != 0 then Absolute else Relative
  }

  /** The record tag a post operation answers to. */
  function OpType(op: Op): EventType
  {
    match op
    case PostMotion(_, _) => MotionTag
    case PostProximity(_, _) => ProximityTag
    case PostButton(_, _, _, _) => ButtonTag
    case PostKeyboard(_, _) => KeyTag
    case PostTouch(_, _, _, _) => TouchTag
    case PostGestureSwipe(_, _, _, _, _, _, _) => GestureSwipeTag
    case PostGesturePinch(_, _, _, _, _, _, _, _, _) => GesturePinchTag
  }

  /** Post operations that hand a valuator mask to the server. */
  predicate PostsMask(op: Op)
  {
    op.PostMotion? || op.PostProximity? || op.PostButton? || op.PostTouch?
  }

  /** Tags whose handler posts something (all but `Unknown` and `WaitForSync`). */
  predicate Forwards(t: EventType)
  {
    t != UnknownTag && t != WaitForSyncTag
  }

  /**
   * The operation the handler for a record posts, once the device is on.
   * `Unknown`, `WaitForSync` and any tag outside the enumeration post nothing.
   * Every other tag posts exactly one operation of its own kind; the four
   * pointer-like records post the converted valuator mask; Motion and Button
   * post `Absolute` exactly when `is_absolute` is non-zero; Key posts its code
   * and state and touches no mask; every scalar field is passed through.
   */
  function Forward(e: Event, maxValuators: nat): (r: Option<Op>)
    ensures r.Some? <==> TypeOf(e).Some? && Forwards(TypeOf(e).value)
    ensures r.Some? ==> TypeOf(e) == Some(OpType(r.value))
    ensures r.Some? ==> (PostsMask(r.value) <==> CarriesValuators(e))
    ensures r.Some? && CarriesValuators(e) ==>
      r.value.mask == Convert(e.valuators, maxValuators)
    ensures r.Some? && (e.Motion? || e.Button?) ==>
      (r.value.mode == Absolute <==> e.isAbsolute != 0)
    ensures e.Key? ==> r == Some(PostKeyboard(e.keyCode, e.isDown))
    ensures e.Button? ==> r.value.button == e.button && r.value.isDown == e.isDown
    ensures e.Proximity? ==> r.value.isIn == e.isIn
    ensures e.Touch? ==>
      r.value.touchId == e.touchId && r.value.touchType == e.touchType &&
      r.value.flags == e.flags
  {
    TagSelectsVariant(e);
    match e
    case Unknown => None
    case WaitForSync => None
    case Motion(isAbsolute, v) =>
      Some(PostMotion(ModeOf(isAbsolute), Convert(v, maxValuators)))
    case Proximity(isIn, v) =>
      Some(PostProximity(isIn, Convert(v, maxValuators)))
    case Button(isAbsolute, button, isDown, v) =>
      Some(PostButton(ModeOf(isAbsolute), button, isDown, Convert(v, maxValuators)))
    case Key(keyCode, isDown) =>
      Some(PostKeyboard(keyCode, isDown))
    case Touch(touchId, touchType, flags, v) =>
      Some(PostTouch(touchId, touchType, flags, Convert(v, maxValuators)))
    case GestureSwipe(gt, n, flags, dx, dy, ux, uy) =>
      Some(PostGestureSwipe(gt, n, flags, dx, dy, ux, uy))
    case GesturePinch(gt, n, flags, dx, dy, ux, uy, scale, angle) =>
      Some(PostGesturePinch(gt, n, flags, dx, dy, ux, uy, scale, angle))
    case Unrecognized(_) => None
  }

  /**
   * The gesture records are passed through field for field: their post
   * operation carries back exactly the record they came from.
   */
  lemma GesturePassThrough(e: Event, maxValuators: nat)
    requires e.GestureSwipe? || e.GesturePinch?
    ensures Forward(e, maxValuators).Some?
    ensures UnpostGesture(Forward(e, maxValuators).value) == e
  {
  }

  /** The gesture record a gesture post operation describes. */
  function UnpostGesture(op: Op): Event
    requires op.PostGestureSwipe? || op.PostGesturePinch?
  {
    match op
    case PostGestureSwipe(gt, n, flags, dx, dy, ux, uy) =>
      GestureSwipe(gt, n, flags, dx, dy, ux, uy)
    case PostGesturePinch(gt, n, flags, dx, dy, ux, uy, scale, angle) =>
      GesturePinch(gt, n, flags, dx, dy, ux, uy, scale, angle)
  }
}
