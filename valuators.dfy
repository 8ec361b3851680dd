/**
 * Conversion of a record's valuator set into the X server's sparse valuator
 * mask (`xf86emulated_convert_to_valuators`).  The server's `ValuatorMask` is
 * an object the driver allocates once and refills for every event, so it is a
 * class here; its three setters are the server calls the conversion makes.
 */
module Valuators {

  import opened WireTypes
  import opened Wrappers

  /** One slot of a server valuator mask: a value and, optionally, its unaccelerated twin. */
  datatype Valuator = Valuator(value: Double, unaccelerated: Option<Double>)

  type ValuatorMap = map<nat, Valuator>

  /** The X server's `ValuatorMask`, abstracted to the slots it holds. */
  class ValuatorMask {
    var entries: ValuatorMap

    constructor ()
      ensures entries == map[]
    {
      entries := map[];
    }

    /** `valuator_mask_zero`: every slot becomes unset. */
    method Zero()
      modifies this
      ensures entries == map[]
    {
      entries := map[];
    }

    /** `valuator_mask_set_double`: slot `i` holds `v`, with no unaccelerated value. */
    method SetDouble(i: nat, v: Double)
      modifies this
      ensures entries == old(entries)[i := Valuator(v, None)]
    {
      entries := entries[i := Valuator(v, None)];
    }

    /** `valuator_mask_set_unaccelerated`: slot `i` holds `v` and its unaccelerated `u`. */
    method SetUnaccelerated(i: nat, v: Double, u: Double)
      modifies this
      ensures entries == old(entries)[i := Valuator(v, Some(u))]
    {
      entries := entries[i := Valuator(v, Some(u))];
    }
  }

  /** How many slots are looked at: `i < EMULATED_MAX_VALUATORS && i < MAX_VALUATORS`. */
  function Limit(maxValuators: nat): (n: nat)
    ensures n <= EMULATED_MAX_VALUATORS && n <= maxValuators
    ensures n == EMULATED_MAX_VALUATORS || n == maxValuators
  {
    if EMULATED_MAX_VALUATORS < maxValuators then EMULATED_MAX_VALUATORS else maxValuators
  }

  /** What slot `i` of the record becomes in the server mask. */
  function EntryAt(v: ValuatorData, i: nat): Valuator
    requires i < EMULATED_MAX_VALUATORS
  {
    if v.hasUnaccelerated != 0 then Valuator(v.valuators[i], Some(v.unaccelerated[i]))
    else Valuator(v.valuators[i], None)
  }

  /** The mask after the conversion loop has looked at slots `0 .. n-1`. */
  function ConvertPrefix(v: ValuatorData, n: nat): ValuatorMap
    requires n <= EMULATED_MAX_VALUATORS
  {
    if n == 0 then map[]
    else
      var m := ConvertPrefix(v, n - 1);
      if BitIsOn(v.mask, n - 1) then m[n - 1 := EntryAt(v, n - 1)] else m
  }

  /** One more slot looked at: it is added exactly when its bit is set. */
  lemma ConvertPrefixStep(v: ValuatorData, n: nat)
    requires 0 < n <= EMULATED_MAX_VALUATORS
    ensures ConvertPrefix(v, n) ==
      if BitIsOn(v.mask, n - 1) then ConvertPrefix(v, n - 1)[n - 1 := EntryAt(v, n - 1)]
      else ConvertPrefix(v, n - 1)
  {
  }

  /**
   * After slots `0 .. n-1` have been looked at, the mask holds exactly the
   * slots among those whose bit is set.
   */
  lemma {:induction false} ConvertPrefixKeys(v: ValuatorData, n: nat)
    requires n <= EMULATED_MAX_VALUATORS
    ensures forall i: nat :: i in ConvertPrefix(v, n) <==> i < n && BitIsOn(v.mask, i)
  {
    if n > 0 {
      ConvertPrefixKeys(v, n - 1);
      ConvertPrefixStep(v, n);
      var m := ConvertPrefix(v, n - 1);
      forall i: nat
        ensures i in ConvertPrefix(v, n) <==> i < n && BitIsOn(v.mask, i)
      {
        if i != n - 1 {
          assert i in ConvertPrefix(v, n) <==> i in m;
        }
      }
    }
  }

  /** Every slot the mask holds after slots `0 .. n-1` carries its record value. */
  lemma {:induction false} ConvertPrefixValues(v: ValuatorData, n: nat)
    requires n <= EMULATED_MAX_VALUATORS
    ensures forall i: nat :: i in ConvertPrefix(v, n) ==>
      i < EMULATED_MAX_VALUATORS && ConvertPrefix(v, n)[i] == EntryAt(v, i)
  {
    if n > 0 {
      ConvertPrefixValues(v, n - 1);
      ConvertPrefixStep(v, n);
    }
  }

  /** The server mask a record's valuator set converts to. */
  function Convert(v: ValuatorData, maxValuators: nat): ValuatorMap
  {
    ConvertPrefix(v, Limit(maxValuators))
  }

  /**
   * The converted mask holds exactly the slots below both capacities whose
   * bit is set, each carrying `valuators[i]`, and `unaccelerated[i]` as well
   * exactly when `has_unaccelerated` is non-zero.
   */
  lemma ConvertSlots(v: ValuatorData, maxValuators: nat)
    ensures var m := Convert(v, maxValuators);
      && (forall i: nat :: i in m <==>
            i < EMULATED_MAX_VALUATORS && i < maxValuators && BitIsOn(v.mask, i))
      && (forall i: nat :: i in m ==> m[i].value == v.valuators[i])
      && (forall i: nat :: i in m ==> (m[i].unaccelerated.Some? <==> v.hasUnaccelerated != 0))
      && (forall i: nat :: i in m && v.hasUnaccelerated != 0 ==>
            m[i].unaccelerated == Some(v.unaccelerated[i]))
  {
    ConvertPrefixKeys(v, Limit(maxValuators));
    ConvertPrefixValues(v, Limit(maxValuators));
  }

  /**
   * Only the first seven mask bytes (bits 0..49) are ever consulted: two
   * valuator sets that differ only in mask bytes 7..49 convert alike.
   */
  lemma ConvertIgnoresTrailingMaskBytes(v: ValuatorData, w: ValuatorData, maxValuators: nat)
    requires v.hasUnaccelerated == w.hasUnaccelerated
    requires v.valuators == w.valuators && v.unaccelerated == w.unaccelerated
    requires v.mask[..7] == w.mask[..7]
    ensures Convert(v, maxValuators) == Convert(w, maxValuators)
  {
    var a, b := Convert(v, maxValuators), Convert(w, maxValuators);
    ConvertSlots(v, maxValuators);
    ConvertSlots(w, maxValuators);
    forall i: nat | i < EMULATED_MAX_VALUATORS
      ensures BitIsOn(v.mask, i) == BitIsOn(w.mask, i)
    {
      assert v.mask[i / 8] == v.mask[..7][i / 8];
      assert w.mask[i / 8] == w.mask[..7][i / 8];
    }
    assert a.Keys == b.Keys;
  }

  /**
   * `xf86emulated_convert_to_valuators`: clear the mask, then copy every slot
   * below both capacities whose bit is set.
   */
  method ConvertToValuators(v: ValuatorData, mask: ValuatorMask, maxValuators: nat)
    modifies mask
    ensures mask.entries == Convert(v, maxValuators)
  {
    mask.Zero();
    var i := 0;
    while i < EMULATED_MAX_VALUATORS && i < maxValuators
      invariant i <= Limit(maxValuators)
      invariant mask.entries == ConvertPrefix(v, i)
    {
      ghost var next := ConvertPrefix(v, i + 1);
      assert next == if BitIsOn(v.mask, i) then ConvertPrefix(v, i)[i := EntryAt(v, i)]
                     else ConvertPrefix(v, i);
      if BitIsOn(v.mask, i) {
        if v.hasUnaccelerated != 0 {
          mask.SetUnaccelerated(i, v.valuators[i], v.unaccelerated[i]);
        } else {
          mask.SetDouble(i, v.valuators[i]);
        }
      }
      i := i + 1;
    }
  }
}
