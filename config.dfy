/**
 * Device configuration: the `EmulatedType` option chosen at pre-init, the
 * XInput type name reported for it, and the identity button map the pointer
 * and touch set-ups hand to the X server.
 */
module Config {

  import opened WireTypes
  import opened Wrappers

  /** The X status codes the driver returns. */
  datatype Status = Success | BadValue

  const TYPE_KEYBOARD: uint32 := 1
  const TYPE_POINTER: uint32 := 2
  const TYPE_POINTER_GESTURE: uint32 := 3
  const TYPE_POINTER_ABS: uint32 := 4
  const TYPE_POINTER_ABS_PROXIMITY: uint32 := 5
  const TYPE_TOUCH: uint32 := 6

  predicate IsDeviceType(t: uint32)
  {
    TYPE_KEYBOARD <= t <= TYPE_TOUCH
  }

  /** The option value that selects each device type. */
  function TypeOptionName(t: uint32): string
    requires IsDeviceType(t)
  {
    if t == TYPE_KEYBOARD then "Keyboard"
    else if t == TYPE_POINTER then "Pointer"
    else if t == TYPE_POINTER_GESTURE then "PointerGesture"
    else if t == TYPE_POINTER_ABS then "PointerAbsolute"
    else if t == TYPE_POINTER_ABS_PROXIMITY then "PointerAbsoluteProximity"
    else "Touch"
  }

  /**
   * The `strcmp` chain on the `EmulatedType` option.  A missing option and
   * any value other than the six recognised ones are refused with BadValue;
   * each recognised value selects the type whose name it is.
   */
  function ParseEmulatedType(option: Option<string>): (r: Result<uint32, Status>)
    ensures r.Err? ==> r.error == BadValue
    ensures r.Ok? <==> exists t :: IsDeviceType(t) && option == Some(TypeOptionName(t))
    ensures r.Ok? ==> IsDeviceType(r.value) && option == Some(TypeOptionName(r.value))
  {
    match option
    case None => Err(BadValue)
    case Some(s) =>
      if s == "Keyboard" then assert TypeOptionName(TYPE_KEYBOARD) == s; Ok(TYPE_KEYBOARD)
      else if s == "Pointer" then assert TypeOptionName(TYPE_POINTER) == s; Ok(TYPE_POINTER)
      else if s == "PointerGesture" then assert TypeOptionName(TYPE_POINTER_GESTURE) == s; Ok(TYPE_POINTER_GESTURE)
      else if s == "PointerAbsolute" then assert TypeOptionName(TYPE_POINTER_ABS) == s; Ok(TYPE_POINTER_ABS)
      else if s == "PointerAbsoluteProximity" then assert TypeOptionName(TYPE_POINTER_ABS_PROXIMITY) == s; Ok(TYPE_POINTER_ABS_PROXIMITY)
      else if s == "Touch" then assert TypeOptionName(TYPE_TOUCH) == s; Ok(TYPE_TOUCH)
      else
        assert forall t :: IsDeviceType(t) ==> TypeOptionName(t) != s;
        Err(BadValue)
  }

  /**
   * The six option values and the six types correspond one to one: each
   * type's name parses back to that type.
   */
  lemma EmulatedTypeRoundTrip(t: uint32)
    requires IsDeviceType(t)
    ensures ParseEmulatedType(Some(TypeOptionName(t))) == Ok(t)
  {
  }

  lemma TypeOptionNameInjective(t: uint32, u: uint32)
    requires IsDeviceType(t) && IsDeviceType(u)
    requires TypeOptionName(t) == TypeOptionName(u)
    ensures t == u
  {
  }

  /** The XInput device type names (`XI_KEYBOARD`, `XI_MOUSE`, ...). */
  datatype XiTypeName = XiKeyboard | XiMouse | XiTablet | XiTouchpad | XiTouchscreen

  /**
   * `xf86emulated_get_type_name`: the gesture pointer is a touchpad, touch a
   * touchscreen, both plain pointers mice, the proximity pointer a tablet, and
   * the keyboard, like every unlisted type, a keyboard.
   */
  function GetTypeName(t: uint32): (n: XiTypeName)
    ensures n == XiTouchpad <==> t == TYPE_POINTER_GESTURE
    ensures n == XiTouchscreen <==> t == TYPE_TOUCH
    ensures n == XiMouse <==> t == TYPE_POINTER || t == TYPE_POINTER_ABS
    ensures n == XiTablet <==> t == TYPE_POINTER_ABS_PROXIMITY
    ensures n == XiKeyboard <==> !IsDeviceType(t) || t == TYPE_KEYBOARD
  {
    if t == TYPE_POINTER_GESTURE then XiTouchpad
    else if t == TYPE_TOUCH then XiTouchscreen
    else if t == TYPE_POINTER || t == TYPE_POINTER_ABS then XiMouse
    else if t == TYPE_POINTER_ABS_PROXIMITY then XiTablet
    else XiKeyboard
  }

  /**
   * The end of pre-init: the option's device type and the type name then
   * reported, or BadValue.
   */
  function PreInitType(option: Option<string>): (r: Result<(uint32, XiTypeName), Status>)
    ensures r.Ok? <==> ParseEmulatedType(option).Ok?
    ensures r.Err? ==> r.error == BadValue
    ensures r.Ok? ==> r.value.0 == ParseEmulatedType(option).value
    ensures option == Some("Keyboard") ==> r == Ok((TYPE_KEYBOARD, XiKeyboard))
    ensures option == Some("Pointer") ==> r == Ok((TYPE_POINTER, XiMouse))
    ensures option == Some("PointerGesture") ==> r == Ok((TYPE_POINTER_GESTURE, XiTouchpad))
    ensures option == Some("PointerAbsolute") ==> r == Ok((TYPE_POINTER_ABS, XiMouse))
    ensures option == Some("PointerAbsoluteProximity") ==>
      r == Ok((TYPE_POINTER_ABS_PROXIMITY, XiTablet))
    ensures option == Some("Touch") ==> r == Ok((TYPE_TOUCH, XiTouchscreen))
  {
    match ParseEmulatedType(option)
    case Err(e) => Err(e)
    case Ok(t) => Ok((t, GetTypeName(t)))
  }

  /**
   * `init_button_map`: clear the map, then make it the identity, each entry
   * truncated to the `unsigned char` it is stored in.
   */
  method InitButtonMap(btnmap: array<uint8>)
    modifies btnmap
    ensures forall i :: 0 <= i < btnmap.Length ==> btnmap[i] == (i % 0x100) as uint8
  {
    forall i | 0 <= i < btnmap.Length {
      btnmap[i] := 0;
    }
    var i := 0;
    while i < btnmap.Length
      invariant 0 <= i <= btnmap.Length
      invariant forall j :: 0 <= j < i ==> btnmap[j] == (j % 0x100) as uint8
    {
      btnmap[i] := (i % 0x100) as uint8;
      i := i + 1;
    }
  }
}
