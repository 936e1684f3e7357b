/** Engineering values and 16-bit registers: registerToValue of DataParseThread.cpp and the conversion in writeSetPoint
    of DataPipeline.cpp, in exact arithmetic. */
module Scaling {
  import opened Wrappers

  const MAX_REGISTER := 65535

  datatype Range = Range(engLow: real, engHigh: real)

  /** What writeSetPoint needs of a tag. */
  datatype TagInfo = TagInfo(range: Range, deviceId: int, register: int)

  datatype RegisterWrite = RegisterWrite(deviceId: int, register: int, raw: int)

  function RegisterToValue(raw: int, range: Range): real {
    if range.engHigh - range.engLow <= 0.0 then range.engLow
    else range.engLow + raw as real / MAX_REGISTER as real * (range.engHigh - range.engLow)
  }

  /** The cast to an unsigned 16-bit integer drops the fraction. */
  function ValueToRegister(value: real, range: Range): int
    requires range.engLow < range.engHigh
  {
    ((value - range.engLow) / (range.engHigh - range.engLow) * MAX_REGISTER as real).Floor
  }

  predicate InRange(value: real, range: Range) {
    range.engLow <= value <= range.engHigh
  }

  // ---- Writing a set point ----

  class DataPipeline {
    /** Set points as they stand in the double buffer, and what was sent to the field bus. */
    var setPoints: map<nat, real>
    var sent: seq<RegisterWrite>

    constructor ()
      ensures setPoints == map[] && sent == []
    {
      setPoints, sent := map[], [];
    }

    /** Without a tag manager (no tag) the value is not checked and nothing is sent. Returns false when the value is
        rejected as out of range. A register goes out exactly for a value inside a range that is not empty; it fits
        16 bits, reads back as at most the value, and no register that does so reads back higher. */
    method WriteSetPoint(tagId: nat, value: real, tag: Option<TagInfo>, hasBus: bool) returns (accepted: bool)
      modifies this
      ensures accepted == (tag.Some? ==> InRange(value, tag.value.range))
      ensures setPoints == if accepted then old(setPoints)[tagId := value] else old(setPoints)
      ensures tag.Some? && hasBus && tag.value.range.engLow < tag.value.range.engHigh &&
              InRange(value, tag.value.range) ==>
                && |sent| == |old(sent)| + 1 && sent[..|old(sent)|] == old(sent)
                && var w := sent[|old(sent)|];
                && w.deviceId == tag.value.deviceId && w.register == tag.value.register
                && Encodes(w.raw, value, tag.value.range)
      ensures !(tag.Some? && hasBus && tag.value.range.engLow < tag.value.range.engHigh &&
              InRange(value, tag.value.range)) ==>
                sent == old(sent)
    {
      if tag.Some? {
        if !(value >= tag.value.range.engLow && value <= tag.value.range.engHigh) {
          return false;
        }
      }
      setPoints := setPoints[tagId := value];
      if tag.Some? && hasBus {
        var span := tag.value.range.engHigh - tag.value.range.engLow;
        if span <= 0.0 {
          return true;
        }
        var raw := ((value - tag.value.range.engLow) / span * MAX_REGISTER as real).Floor;
        RegisterEncodes(value, tag.value.range);
        sent := sent + [RegisterWrite(tag.value.deviceId, tag.value.register, raw)];
      }
      return true;
    }
  }

  /** The register is the 16-bit register whose reading is the closest to the value from below. */
  ghost predicate Encodes(raw: int, value: real, range: Range) {
    && 0 <= raw <= MAX_REGISTER
    && RegisterToValue(raw, range) <= value
    && (forall r: int :: RegisterToValue(r, range) <= value ==>
          RegisterToValue(r, range) <= RegisterToValue(raw, range))
  }

  // ---- Arithmetic ----

  lemma ScaleBetween(x: real, span: real, n: real)
    requires span > 0.0 && 0.0 <= x <= span && n >= 0.0
    ensures 0.0 <= x / span * n <= n
  {
    var q := x / span;
    assert q * span == x;
    assert 0.0 <= q;
    assert q <= 1.0;
  }

  lemma ScaleMonotone(x: real, y: real, span: real, n: real)
    requires span > 0.0 && n > 0.0
    ensures x <= y <==> x / span * n <= y / span * n
  {
    var p, q := x / span, y / span;
    assert p * span == x && q * span == y;
    assert p * n <= q * n <==> p <= q;
    assert p * span <= q * span <==> p <= q;
  }

  lemma ScaleBack(r: real, span: real, n: real)
    requires span > 0.0 && n > 0.0
    ensures (r / n * span) / span * n == r
  {
    var q := r / n;
    assert q * n == r;
    assert q * span / span == q;
  }

  lemma FloorBelow(r: int, x: real)
    ensures r as real <= x <==> r <= x.Floor
  {
  }

  // ---- The two conversions ----

  /** The register of a value is the largest one that does not read back above the value: conversion and read-back
      form an adjoint pair. */
  lemma RegisterIsLargestBelow(value: real, range: Range, raw: int)
    requires range.engLow < range.engHigh
    ensures RegisterToValue(raw, range) <= value <==> raw <= ValueToRegister(value, range)
  {
    var span, n := range.engHigh - range.engLow, MAX_REGISTER as real;
    var back := raw as real / n * span;
    ScaleBack(raw as real, span, n);
    ScaleMonotone(back, value - range.engLow, span, n);
    assert RegisterToValue(raw, range) == range.engLow + back;
    FloorBelow(raw, (value - range.engLow) / span * n);
  }

  /** An in-range value gets a 16-bit register, with the ends of the range at 0 and 65535. */
  lemma RegisterFits(value: real, range: Range)
    requires range.engLow < range.engHigh && InRange(value, range)
    ensures 0 <= ValueToRegister(value, range) <= MAX_REGISTER
    ensures ValueToRegister(value, range) == MAX_REGISTER <==> value == range.engHigh
  {
    var span, n := range.engHigh - range.engLow, MAX_REGISTER as real;
    ScaleBetween(value - range.engLow, span, n);
    ScaleMonotone(span, value - range.engLow, span, n);
    assert span / span == 1.0;
  }

  /** Reading back loses less than one step of the scale, and never exceeds the value written. */
  lemma ReadBack(value: real, range: Range)
    requires range.engLow < range.engHigh
    ensures var raw := ValueToRegister(value, range);
            && RegisterToValue(raw, range) <= value
            && value - RegisterToValue(raw, range) < (range.engHigh - range.engLow) / MAX_REGISTER as real
  {
    var raw := ValueToRegister(value, range);
    RegisterIsLargestBelow(value, range, raw);
    RegisterIsLargestBelow(value, range, raw + 1);
    StepOf(raw, range);
  }

  lemma StepOf(raw: int, range: Range)
    requires range.engLow < range.engHigh
    ensures RegisterToValue(raw + 1, range) - RegisterToValue(raw, range) ==
              (range.engHigh - range.engLow) / MAX_REGISTER as real
  {
    var span, n := range.engHigh - range.engLow, MAX_REGISTER as real;
    assert (raw + 1) as real / n * span == raw as real / n * span + span / n;
  }

  lemma Monotone(v: real, w: real, range: Range)
    requires range.engLow < range.engHigh && v <= w
    ensures ValueToRegister(v, range) <= ValueToRegister(w, range)
  {
    ScaleMonotone(v - range.engLow, w - range.engLow, range.engHigh - range.engLow, MAX_REGISTER as real);
  }

  /** Every register survives being read and written back. */
  lemma RegisterRoundTrip(raw: nat, range: Range)
    requires range.engLow < range.engHigh && raw <= MAX_REGISTER
    ensures ValueToRegister(RegisterToValue(raw, range), range) == raw
    ensures InRange(RegisterToValue(raw, range), range)
  {
    var span, n := range.engHigh - range.engLow, MAX_REGISTER as real;
    ScaleBack(raw as real, span, n);
    assert RegisterToValue(raw, range) - range.engLow == raw as real / n * span;
    ScaleBetween(raw as real, n, span);
  }

  /** A reading never leaves the range, and is its lower end if the range is empty. */
  lemma ReadingStaysInside(raw: nat, range: Range)
    requires raw <= MAX_REGISTER
    ensures var low, high := range.engLow, range.engHigh;
            if low < high then low <= RegisterToValue(raw, range) <= high else RegisterToValue(raw, range) == low
  {
    if range.engLow < range.engHigh {
      RegisterRoundTrip(raw, range);
    }
  }

  lemma ReadingsAscend(raw: int, raw': int, range: Range)
    requires range.engLow < range.engHigh && raw <= raw'
    ensures RegisterToValue(raw, range) <= RegisterToValue(raw', range)
  {
    RegisterIsLargestBelow(RegisterToValue(raw', range), range, raw);
    RegisterIsLargestBelow(RegisterToValue(raw', range), range, raw');
  }

  lemma RegisterEncodes(value: real, range: Range)
    requires range.engLow < range.engHigh && InRange(value, range)
    ensures Encodes(ValueToRegister(value, range), value, range)
  {
    var raw := ValueToRegister(value, range);
    RegisterFits(value, range);
    RegisterIsLargestBelow(value, range, raw);
    forall r: int | RegisterToValue(r, range) <= value
      ensures RegisterToValue(r, range) <= RegisterToValue(raw, range)
    {
      RegisterIsLargestBelow(value, range, r);
      ReadingsAscend(r, raw, range);
    }
  }

  /** Being the closest reading from below determines the register. */
  lemma EncodesDetermines(value: real, range: Range, raw: int)
    requires range.engLow < range.engHigh && InRange(value, range) && Encodes(raw, value, range)
    ensures raw == ValueToRegister(value, range)
  {
    var best := ValueToRegister(value, range);
    RegisterEncodes(value, range);
    RegisterIsLargestBelow(value, range, raw);
    RegisterIsLargestBelow(RegisterToValue(raw, range), range, best);
    RegisterRoundTrip(raw, range);
  }
}
