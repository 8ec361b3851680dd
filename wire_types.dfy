/**
 * The wire records of the emulated input protocol: the event tag enumeration,
 * the embedded valuator set and one record layout per event kind.  Every record
 * of the protocol has the same fixed size; the byte layout itself (padding,
 * field offsets) depends on the compiler ABI and is left abstract here, so a
 * record is modelled by the values of its fields.
 */
module WireTypes {

  import opened Wrappers

  newtype uint8 = x: int | 0 <= x < 0x100
  newtype uint16 = x: int | 0 <= x < 0x1_0000
  newtype uint32 = x: int | 0 <= x < 0x1_0000_0000
  newtype int32 = x: int | -0x8000_0000 <= x < 0x8000_0000

  /** A C `double`, kept as its 64-bit pattern: the driver only copies these. */
  type Double = bv64

  /** The byte the driver writes back once a sync request has been drained. */
  const SYNC_RESPONSE: char := 's'

  /** Number of valuator slots a record carries. */
  const EMULATED_MAX_VALUATORS: nat := 50

  /**
   * Length of the valuator bit mask in bytes.  The header writes
   * `EMULATED_MAX_VALUATORS + 7 / 8`, which C parses as `50 + (7 / 8)`, i.e. 50,
   * not the 7 bytes that 50 bits need.
   */
  const MASK_LEN: nat := EMULATED_MAX_VALUATORS + 7 / 8

  type MaskBytes = s: seq<bv8> | |s| == MASK_LEN witness seq(MASK_LEN, _ => 0)
  type DoubleArray = s: seq<Double> | |s| == EMULATED_MAX_VALUATORS
    witness seq(EMULATED_MAX_VALUATORS, _ => 0)

  /** `EmulatedValuatorData`: a bit mask plus the primary and the unaccelerated values. */
  datatype ValuatorData = ValuatorData(
    hasUnaccelerated: uint8,
    mask: MaskBytes,
    valuators: DoubleArray,
    unaccelerated: DoubleArray)

  /**
   * X's `BitIsOn(mask, i)`: bit `i & 7` of byte `i >> 3`.  Any index whose byte
   * lies inside the mask may be asked about.
   */
  predicate BitIsOn(mask: MaskBytes, i: nat)
    requires i < 8 * MASK_LEN
  {
    mask[i / 8] & BitOf(i % 8) != 0
  }

  /** The byte with only bit `k` set, for the eight bit positions `k` of a byte. */
  function BitOf(k: nat): bv8
    requires k < 8
  {
    match k
    case 0 => 0x01
    case 1 => 0x02
    case 2 => 0x04
    case 3 => 0x08
    case 4 => 0x10
    case 5 => 0x20
    case 6 => 0x40
    case 7 => 0x80
  }

  /** `BitOf(k)` is `1 << k`, the byte `BitIsOn` tests against. */
  lemma BitOfIsShift(k: nat)
    requires k < 8
    ensures BitOf(k) == (1 as bv8) << k
  {
  }

  /** `enum EmulatedEventType`, one constructor per enumerator. */
  datatype EventType =
    | UnknownTag
    | WaitForSyncTag
    | MotionTag
    | ProximityTag
    | ButtonTag
    | KeyTag
    | TouchTag
    | GestureSwipeTag
    | GesturePinchTag

  /** The value C gives each enumerator: its position in the declaration. */
  function TagValue(t: EventType): uint32
  {
    match t
    case UnknownTag => 0
    case WaitForSyncTag => 1
    case MotionTag => 2
    case ProximityTag => 3
    case ButtonTag => 4
    case KeyTag => 5
    case TouchTag => 6
    case GestureSwipeTag => 7
    case GesturePinchTag => 8
  }

  /** Decoding a raw tag: the enumerator with that value, if there is one. */
  function TypeOfTag(n: uint32): (r: Option<EventType>)
    ensures r.Some? <==> n <= 8
    ensures r.Some? ==> TagValue(r.value) == n
  {
    if n == 0 then Some(UnknownTag)
    else if n == 1 then Some(WaitForSyncTag)
    else if n == 2 then Some(MotionTag)
    else if n == 3 then Some(ProximityTag)
    else if n == 4 then Some(ButtonTag)
    else if n == 5 then Some(KeyTag)
    else if n == 6 then Some(TouchTag)
    else if n == 7 then Some(GestureSwipeTag)
    else if n == 8 then Some(GesturePinchTag)
    else None
  }

  /** Encoding then decoding a tag gives it back; distinct enumerators have distinct values. */
  lemma TagRoundTrip(t: EventType, u: EventType)
    ensures TypeOfTag(TagValue(t)) == Some(t)
    ensures TagValue(t) == TagValue(u) ==> t == u
  {
  }

  /** A raw tag that no enumerator has (the wire may carry one). */
  type OutOfRangeTag = n: uint32 | n > 8 witness 9

  /**
   * `EmulatedEvent`, the union of all record layouts.  Each constructor is one
   * variant; its fields are those that follow the leading `event` tag.  A record
   * whose tag is outside the enumeration is `Unrecognized`.
   */
  datatype Event =
    | Unknown
    | WaitForSync
    | Motion(isAbsolute: int32, valuators: ValuatorData)
    | Proximity(isIn: int32, valuators: ValuatorData)
    | Button(isAbsolute: int32, button: int32, isDown: int32, valuators: ValuatorData)
    | Key(keyCode: int32, isDown: int32)
    | Touch(touchId: uint32, touchType: uint16, flags: uint32, valuators: ValuatorData)
    | GestureSwipe(gestureType: uint16, numTouches: uint16, flags: uint32,
                   deltaX: Double, deltaY: Double,
                   deltaUnaccelX: Double, deltaUnaccelY: Double)
    | GesturePinch(gestureType: uint16, numTouches: uint16, flags: uint32,
                   deltaX: Double, deltaY: Double,
                   deltaUnaccelX: Double, deltaUnaccelY: Double,
                   scale: Double, deltaAngle: Double)
    | Unrecognized(tag: OutOfRangeTag)

  /** The leading `event` field, which every variant shares (`any.event`). */
  function TagOf(e: Event): uint32
  {
    match e
    case Unknown => TagValue(UnknownTag)
    case WaitForSync => TagValue(WaitForSyncTag)
    case Motion(_, _) => TagValue(MotionTag)
    case Proximity(_, _) => TagValue(ProximityTag)
    case Button(_, _, _, _) => TagValue(ButtonTag)
    case Key(_, _) => TagValue(KeyTag)
    case Touch(_, _, _, _) => TagValue(TouchTag)
    case GestureSwipe(_, _, _, _, _, _, _) => TagValue(GestureSwipeTag)
    case GesturePinch(_, _, _, _, _, _, _, _, _) => TagValue(GesturePinchTag)
    case Unrecognized(n) => n
  }

  /** The enumerator a record's tag selects, read through the shared tag field. */
  function TypeOf(e: Event): Option<EventType>
  {
    TypeOfTag(TagOf(e))
  }

  /**
   * Only Motion, Proximity, Button and Touch embed an `EmulatedValuatorData`;
   * Key and the gesture records carry fixed named fields instead.
   */
  predicate CarriesValuators(e: Event)
  {
    e.Motion? || e.Proximity? || e.Button? || e.Touch?
  }

  /**
   * The tag read through the shared field selects exactly the variant the
   * record was built as, and the records with a valuator set are exactly those
   * of the four pointer-like tags.
   */
  lemma TagSelectsVariant(e: Event)
    ensures TypeOf(e).None? <==> e.Unrecognized?
    ensures TypeOf(e) == Some(UnknownTag) <==> e.Unknown?
    ensures TypeOf(e) == Some(WaitForSyncTag) <==> e.WaitForSync?
    ensures TypeOf(e) == Some(MotionTag) <==> e.Motion?
    ensures TypeOf(e) == Some(ProximityTag) <==> e.Proximity?
    ensures TypeOf(e) == Some(ButtonTag) <==> e.Button?
    ensures TypeOf(e) == Some(KeyTag) <==> e.Key?
    ensures TypeOf(e) == Some(TouchTag) <==> e.Touch?
    ensures TypeOf(e) == Some(GestureSwipeTag) <==> e.GestureSwipe?
    ensures TypeOf(e) == Some(GesturePinchTag) <==> e.GesturePinch?
    ensures CarriesValuators(e) <==>
      TypeOf(e) in {Some(MotionTag), Some(ProximityTag), Some(ButtonTag), Some(TouchTag)}
  {
  }
}
