/** The limit check of the parse thread (DataParseThread.cpp, DeadbandFilter.h): the spike filter, the four alarm
    limits with their deadband, and the return to normal. Values are exact reals. */
module LimitCheck {
  import opened Wrappers
  import opened AlarmTypes

  datatype Config = Config(
    highHigh: real, high: real, low: real, lowLow: real, deadband: real,
    highHighEnabled: bool, highEnabled: bool, lowEnabled: bool, lowLowEnabled: bool,
    alarmEnabled: bool, rateOfChangeLimit: real)

  /** What checkAlarmLimits asks of the alarm engine. */
  datatype Outcome =
    | Trigger(limit: AlarmLimit, threshold: real, priority: AlarmPriority)
    | Clear
    | Quiet

  function Abs(x: real): real {
    if x < 0.0 then -x else x
  }

  // ---- DeadbandFilter ----

  predicate Exceeds(value: real, threshold: real, deadband: real, limit: AlarmLimit, prev: real) {
    match limit
    case HighHigh | High => value > threshold + deadband || (value > threshold && prev <= threshold)
    case Low | LowLow => value < threshold - deadband || (value < threshold && prev >= threshold)
    case _ => false
  }

  /** The filter passes every value beyond the threshold by more than the deadband and every value that has just crossed
      the threshold, and nothing else: what stays within the deadband beyond it is held back. */
  lemma CrossingsPass(value: real, threshold: real, deadband: real, prev: real)
    requires deadband >= 0.0
    ensures value - threshold > deadband || prev <= threshold < value ==>
              Exceeds(value, threshold, deadband, High, prev)
    ensures threshold - value > deadband || value < threshold <= prev ==>
              Exceeds(value, threshold, deadband, Low, prev)
    ensures value <= threshold || threshold < prev <= value <= threshold + deadband ==>
              !Exceeds(value, threshold, deadband, High, prev)
    ensures value >= threshold || threshold > prev >= value >= threshold - deadband ==>
              !Exceeds(value, threshold, deadband, Low, prev)
  {
  }

  predicate ReturnsToNormal(value: real, threshold: real, deadband: real, limit: AlarmLimit) {
    match limit
    case HighHigh | High => value <= threshold - deadband
    case Low | LowLow => value >= threshold + deadband
    case _ => true
  }

  predicate AllNormal(c: Config, value: real) {
    && (c.highHighEnabled ==> ReturnsToNormal(value, c.highHigh, c.deadband, HighHigh))
    && (c.highEnabled ==> ReturnsToNormal(value, c.high, c.deadband, High))
    && (c.lowEnabled ==> ReturnsToNormal(value, c.low, c.deadband, Low))
    && (c.lowLowEnabled ==> ReturnsToNormal(value, c.lowLow, c.deadband, LowLow))
  }

  /** The chain of branches; `prev` is what the table of previous values holds for the tag. */
  function Check(c: Config, value: real, prev: real): Outcome {
    if !c.alarmEnabled then Quiet
    else if c.highHighEnabled && Exceeds(value, c.highHigh, c.deadband, HighHigh, prev)
    then Trigger(HighHigh, c.highHigh, Critical)
    else if c.highEnabled && Exceeds(value, c.high, c.deadband, High, prev) then Trigger(High, c.high, Major)
    else if c.lowEnabled && Exceeds(value, c.low, c.deadband, Low, prev) then Trigger(Low, c.low, Major)
    else if c.lowLowEnabled && Exceeds(value, c.lowLow, c.deadband, LowLow, prev)
    then Trigger(LowLow, c.lowLow, Critical)
    else if AllNormal(c, value) then Clear
    else Quiet
  }

  /** A sample too far from the last accepted one is taken for a spike. `dt` is the processing interval in seconds. */
  predicate Spike(c: Config, prev: Option<real>, value: real, dt: real) {
    c.rateOfChangeLimit > 0.0 && prev.Some? && dt > 0.0 && Abs(value - prev.value) / dt > c.rateOfChangeLimit * 3.0
  }

  // ---- The spike filter ----

  predicate Filtering(c: Config, dt: real) {
    c.rateOfChangeLimit > 0.0 && dt > 0.0
  }

  /** How far a sample may lie from the last accepted one. */
  function Reach(c: Config, dt: real): real {
    3.0 * c.rateOfChangeLimit * dt
  }

  lemma QuotientExceeds(x: real, dt: real, bound: real)
    requires dt > 0.0
    ensures x / dt > bound <==> x > bound * dt
  {
    var q := x / dt;
    assert q * dt == x;
    if q > bound {
      assert (q - bound) * dt > 0.0;
    } else {
      assert (bound - q) * dt >= 0.0;
    }
  }

  /** A sample is dropped exactly if the filter is on and it lies out of reach of the last accepted one. */
  lemma SpikeMeans(c: Config, prev: Option<real>, value: real, dt: real)
    ensures Spike(c, prev, value, dt) <==> Filtering(c, dt) && prev.Some? && Abs(value - prev.value) > Reach(c, dt)
  {
    if Filtering(c, dt) && prev.Some? {
      QuotientExceeds(Abs(value - prev.value), dt, c.rateOfChangeLimit * 3.0);
      assert c.rateOfChangeLimit * 3.0 * dt == Reach(c, dt);
    }
  }

  // ---- The thread ----

  /** One sample of one tag: the last accepted value afterwards, and the request to the engine. The value is stored
      before it is checked, so the check compares it with itself. */
  function Process(c: Config, prev: Option<real>, value: real, dt: real): (Option<real>, Outcome) {
    if Spike(c, prev, value, dt) then (prev, Quiet) else (Some(value), Check(c, value, value))
  }

  class DataParseThread {
    var prevValues: map<nat, real>
    var processIntervalMs: int

    constructor (interval: int)
      ensures prevValues == map[] && processIntervalMs == interval
    {
      prevValues, processIntervalMs := map[], interval;
    }

    function Previous(tagId: nat): Option<real>
      reads this
    {
      if tagId in prevValues then Some(prevValues[tagId]) else None
    }

    function Seconds(): real
      reads this
    {
      processIntervalMs as real / 1000.0
    }

    method ValidateRateOfChange(tagId: nat, value: real, c: Config) returns (spike: bool)
      ensures spike <==>
                Filtering(c, Seconds()) && tagId in prevValues && Abs(value - prevValues[tagId]) > Reach(c, Seconds())
    {
      SpikeMeans(c, Previous(tagId), value, Seconds());
      if c.rateOfChangeLimit <= 0.0 {
        return false;
      }
      if tagId !in prevValues {
        return false;
      }
      var dt := processIntervalMs as real / 1000.0;
      if dt <= 0.0 {
        return false;
      }
      var rate := Abs(value - prevValues[tagId]) / dt;
      return rate > c.rateOfChangeLimit * 3.0;
    }

    method CheckAlarmLimits(tagId: nat, value: real, c: Config) returns (outcome: Outcome)
      ensures outcome == Check(c, value, if tagId in prevValues then prevValues[tagId] else value)
    {
      if !c.alarmEnabled {
        return Quiet;
      }
      var prev := if tagId in prevValues then prevValues[tagId] else value;
      if c.highHighEnabled && Exceeds(value, c.highHigh, c.deadband, HighHigh, prev) {
        return Trigger(HighHigh, c.highHigh, Critical);
      } else if c.highEnabled && Exceeds(value, c.high, c.deadband, High, prev) {
        return Trigger(High, c.high, Major);
      } else if c.lowEnabled && Exceeds(value, c.low, c.deadband, Low, prev) {
        return Trigger(Low, c.low, Major);
      } else if c.lowLowEnabled && Exceeds(value, c.lowLow, c.deadband, LowLow, prev) {
        return Trigger(LowLow, c.lowLow, Critical);
      } else {
        var hhOK := !c.highHighEnabled || ReturnsToNormal(value, c.highHigh, c.deadband, HighHigh);
        var hOK := !c.highEnabled || ReturnsToNormal(value, c.high, c.deadband, High);
        var lOK := !c.lowEnabled || ReturnsToNormal(value, c.low, c.deadband, Low);
        var llOK := !c.lowLowEnabled || ReturnsToNormal(value, c.lowLow, c.deadband, LowLow);
        return if hhOK && hOK && lOK && llOK then Clear else Quiet;
      }
    }

    /** The part of processBatch that deals with one converted value. */
    method ProcessValue(tagId: nat, value: real, c: Config) returns (outcome: Outcome)
      modifies this`prevValues
      ensures (Previous(tagId), outcome) == Process(c, old(Previous(tagId)), value, Seconds())
      ensures forall t: nat :: t != tagId ==> Previous(t) == old(Previous(t))
    {
      var spike := ValidateRateOfChange(tagId, value, c);
      SpikeMeans(c, Previous(tagId), value, Seconds());
      if spike {
        return Quiet;
      }
      prevValues := prevValues[tagId := value];
      outcome := CheckAlarmLimits(tagId, value, c);
    }

    /** All samples of one tag, in order. */
    method ProcessSignal(tagId: nat, signal: seq<real>, c: Config) returns (outcomes: seq<Outcome>)
      modifies this`prevValues
      ensures outcomes == Outcomes(c, old(Previous(tagId)), signal, Seconds())
      ensures Previous(tagId) == Accepted(c, old(Previous(tagId)), signal, Seconds())
    {
      ghost var start := Previous(tagId);
      outcomes := [];
      var i := 0;
      while i < |signal|
        invariant 0 <= i <= |signal|
        invariant outcomes == Outcomes(c, start, signal[..i], Seconds()) &&
                Previous(tagId) == Accepted(c, start, signal[..i], Seconds())
      {
        assert signal[..i + 1][..i] == signal[..i];
        var outcome := ProcessValue(tagId, signal[i], c);
        outcomes := outcomes + [outcome];
        i := i + 1;
      }
      assert signal[..i] == signal;
    }
  }

  // ---- Signals ----

  /** The last accepted value of a signal; `start` is what was stored for the tag before it. */
  function Accepted(c: Config, start: Option<real>, signal: seq<real>, dt: real): Option<real> {
    if signal == [] then start
    else
      var n := |signal| - 1;
      Process(c, Accepted(c, start, signal[..n], dt), signal[n], dt).0
  }

  function Outcomes(c: Config, start: Option<real>, signal: seq<real>, dt: real): (outcomes: seq<Outcome>)
    ensures |outcomes| == |signal|
  {
    if signal == [] then []
    else
      var n := |signal| - 1;
      Outcomes(c, start, signal[..n], dt) + [Process(c, Accepted(c, start, signal[..n], dt), signal[n], dt).1]
  }

  ghost predicate Dropped(c: Config, start: Option<real>, signal: seq<real>, dt: real, k: nat)
    requires k < |signal|
  {
    Spike(c, Accepted(c, start, signal[..k], dt), signal[k], dt)
  }

  /** Successive accepted samples lie within reach of each other, whatever lies between. */
  lemma AcceptedWithinReach(c: Config, start: Option<real>, signal: seq<real>, dt: real, k: nat)
    requires k < |signal| && Filtering(c, dt)
    ensures var a, b := Accepted(c, start, signal[..k], dt), Accepted(c, start, signal[..k + 1], dt);
            && b.Some? && (a.Some? ==> Abs(b.value - a.value) <= Reach(c, dt))
            && b == (if Dropped(c, start, signal, dt, k) then a else Some(signal[k]))
  {
    assert signal[..k + 1][..k] == signal[..k];
    SpikeMeans(c, Accepted(c, start, signal[..k], dt), signal[k], dt);
    assert Reach(c, dt) >= 0.0;
  }

  lemma {:induction false} DroppedKeeps(c: Config, p: real, signal: seq<real>, dt: real, k: nat)
    requires k <= |signal| && forall i: nat :: i < k ==> Dropped(c, Some(p), signal, dt, i)
    ensures Accepted(c, Some(p), signal[..k], dt) == Some(p)
  {
    if k > 0 {
      DroppedKeeps(c, p, signal, dt, k - 1);
      assert signal[..k][..k - 1] == signal[..k - 1];
      assert Dropped(c, Some(p), signal, dt, k - 1);
    }
  }

  lemma {:induction false} OutOfReachDropped(c: Config, p: real, signal: seq<real>, dt: real, k: nat)
    requires Filtering(c, dt) && k < |signal| && forall i: nat :: i <= k ==> Abs(signal[i] - p) > Reach(c, dt)
    ensures Dropped(c, Some(p), signal, dt, k)
  {
    forall i: nat | i < k ensures Dropped(c, Some(p), signal, dt, i) {
      OutOfReachDropped(c, p, signal, dt, i);
    }
    DroppedKeeps(c, p, signal, dt, k);
    SpikeMeans(c, Some(p), signal[k], dt);
  }

  /** A dropped sample does not replace the last accepted one, so everything is dropped for as long as the signal stays
      out of its reach, and only then. */
  lemma DroppedForGood(c: Config, p: real, signal: seq<real>, dt: real)
    requires Filtering(c, dt)
    ensures (forall k: nat :: k < |signal| ==> Dropped(c, Some(p), signal, dt, k)) <==>
            (forall k: nat :: k < |signal| ==> Abs(signal[k] - p) > Reach(c, dt))
  {
    if forall k: nat :: k < |signal| ==> Dropped(c, Some(p), signal, dt, k) {
      forall k: nat | k < |signal| ensures Abs(signal[k] - p) > Reach(c, dt) {
        DroppedKeeps(c, p, signal, dt, k);
        assert Dropped(c, Some(p), signal, dt, k);
        SpikeMeans(c, Some(p), signal[k], dt);
      }
    }
    if forall k: nat :: k < |signal| ==> Abs(signal[k] - p) > Reach(c, dt) {
      forall k: nat | k < |signal| ensures Dropped(c, Some(p), signal, dt, k) {
        OutOfReachDropped(c, p, signal, dt, k);
      }
    }
  }

  /** A signal that steps out of reach and stays there raises no alarm, whatever its samples would trigger. */
  lemma StepMissed(c: Config, p: real, signal: seq<real>, dt: real, k: nat)
    requires Filtering(c, dt) && k < |signal| && forall i: nat :: i <= k ==> Abs(signal[i] - p) > Reach(c, dt)
    ensures Outcomes(c, Some(p), signal, dt)[k] == Quiet
  {
    OutOfReachDropped(c, p, signal, dt, k);
    OutcomeAt(c, Some(p), signal, dt, k);
  }

  /** Total variation of the whole signal, spikes included. */
  function Variation(signal: seq<real>): real {
    if |signal| <= 1 then 0.0
    else
      var n := |signal| - 1;
      Variation(signal[..n]) + Abs(signal[n] - signal[n - 1])
  }

  lemma {:induction false} OutcomeAt(c: Config, start: Option<real>, signal: seq<real>, dt: real, k: nat)
    requires k < |signal|
    ensures Outcomes(c, start, signal, dt)[k] == Process(c, Accepted(c, start, signal[..k], dt), signal[k], dt).1
  {
    var n := |signal| - 1;
    if k < n {
      OutcomeAt(c, start, signal[..n], dt, k);
      assert signal[..n][..k] == signal[..k];
    }
  }

  lemma {:induction false} VariationBetween(signal: seq<real>, i: nat, j: nat)
    requires i <= j < |signal|
    ensures Variation(signal[..j + 1]) >= Variation(signal[..i + 1]) + Abs(signal[j] - signal[i])
  {
    if i < j {
      VariationBetween(signal, i, j - 1);
      assert signal[..j + 1][..j] == signal[..j];
    }
  }

  lemma {:induction false} VariationGrows(signal: seq<real>, i: nat)
    requires i <= |signal|
    ensures 0.0 <= Variation(signal[..i]) <= Variation(signal)
    decreases |signal| - i, i
  {
    if i < |signal| {
      VariationGrows(signal, i + 1);
      assert signal[..i + 1][..i] == signal[..i];
      VariationPositive(signal[..i]);
    } else {
      assert signal[..i] == signal;
      VariationPositive(signal);
    }
  }

  lemma {:induction false} VariationPositive(signal: seq<real>)
    ensures Variation(signal) >= 0.0
  {
    if |signal| > 1 {
      VariationPositive(signal[..|signal| - 1]);
    }
  }

  // ---- Hysteresis ----

  function ThresholdOf(c: Config, l: AlarmLimit): real {
    match l
    case HighHigh => c.highHigh
    case High => c.high
    case Low => c.low
    case LowLow => c.lowLow
    case _ => 0.0
  }

  predicate Enabled(c: Config, l: AlarmLimit) {
    match l
    case HighHigh => c.highHighEnabled
    case High => c.highEnabled
    case Low => c.lowEnabled
    case LowLow => c.lowLowEnabled
    case _ => false
  }

  /** An enabled limit is exceeded by more than the deadband. */
  predicate Beyond(c: Config, l: AlarmLimit, value: real) {
    c.alarmEnabled && Enabled(c, l) &&
    if l.High? || l.HighHigh? then value > ThresholdOf(c, l) + c.deadband else value < ThresholdOf(c, l) - c.deadband
  }

  /** An enabled limit is left behind by at least the deadband. */
  predicate Behind(c: Config, l: AlarmLimit, value: real) {
    Enabled(c, l) ==>
      if l.High? || l.HighHigh? then value <= ThresholdOf(c, l) - c.deadband
      else value >= ThresholdOf(c, l) + c.deadband
  }

  /** Since the value is stored before it is checked, the crossing half of the test never applies: a sample triggers
      exactly if some limit is exceeded by more than the deadband, and clears exactly if every limit is left behind. */
  lemma CheckMeans(c: Config, value: real)
    requires c.deadband >= 0.0
    ensures Check(c, value, value).Trigger? <==> exists l :: Beyond(c, l, value)
    ensures Check(c, value, value).Clear? <==> c.alarmEnabled && forall l :: Behind(c, l, value)
  {
    if Check(c, value, value).Trigger? {
      assert Beyond(c, Check(c, value, value).limit, value);
    }
    assert AllNormal(c, value) <==>
             Behind(c, HighHigh, value) && Behind(c, High, value) && Behind(c, Low, value) && Behind(c, LowLow, value);
  }

  lemma ReportsItsLimit(c: Config, value: real)
    requires c.deadband >= 0.0 && Check(c, value, value).Trigger?
    ensures var o := Check(c, value, value); Beyond(c, o.limit, value) && o.threshold == ThresholdOf(c, o.limit)
  {
  }

  /** With the low limits below the high ones, the limit reported is the most severe one exceeded on the high side and
      the least severe one on the low side; HighHigh and LowLow are Critical, the others Major. */
  lemma ReportedLimit(c: Config, value: real)
    requires c.deadband >= 0.0 && c.low <= c.high && c.low <= c.highHigh && c.lowLow <= c.high && c.lowLow <= c.highHigh
    requires Check(c, value, value).Trigger?
    ensures var o := Check(c, value, value);
            && Beyond(c, o.limit, value) && o.threshold == ThresholdOf(c, o.limit)
            && (o.priority == if o.limit.HighHigh? || o.limit.LowLow? then Critical else Major)
            && (forall l :: Beyond(c, l, value) ==>
                  if o.limit.High? || o.limit.HighHigh? then l.Rank() <= o.limit.Rank() && (l.High? || l.HighHigh?)
                  else l.Rank() <= o.limit.Rank() && (l.Low? || l.LowLow?))
  {
  }

  lemma Swing(c: Config, v: real, w: real)
    requires c.deadband >= 0.0 && Check(c, v, v).Trigger? && Check(c, w, w).Clear?
    ensures Abs(v - w) > 2.0 * c.deadband
  {
  }

  /** Positions of events that alternate between triggering and clearing. */
  ghost predicate Alternating(outcomes: seq<Outcome>, events: seq<nat>) {
    && (forall j :: 0 <= j < |events| ==> events[j] < |outcomes| && outcomes[events[j]] != Quiet)
    && (forall j :: 1 <= j < |events| ==> events[j - 1] < events[j])
    && (forall j :: 1 <= j < |events| ==> outcomes[events[j - 1]].Trigger? != outcomes[events[j]].Trigger?)
  }

  lemma EventsSwing(c: Config, start: Option<real>, signal: seq<real>, dt: real, i: nat, j: nat)
    requires c.deadband >= 0.0 && i < |signal| && j < |signal|
    requires var o := Outcomes(c, start, signal, dt); o[i] != Quiet && o[j] != Quiet && o[i].Trigger? != o[j].Trigger?
    ensures Abs(signal[j] - signal[i]) > 2.0 * c.deadband
  {
    OutcomeAt(c, start, signal, dt, i);
    OutcomeAt(c, start, signal, dt, j);
    if Outcomes(c, start, signal, dt)[i].Trigger? {
      Swing(c, signal[i], signal[j]);
    } else {
      Swing(c, signal[j], signal[i]);
    }
  }

  function Times(x: real, m: nat): real {
    if m == 0 then 0.0 else Times(x, m - 1) + x
  }

  lemma {:induction false} TimesMultiplies(x: real, m: nat)
    ensures Times(x, m) == x * m as real
  {
    if m > 0 {
      TimesMultiplies(x, m - 1);
      assert x * m as real == x * (m - 1) as real + x;
    }
  }

  lemma {:induction false} SwingsAddUp(c: Config, start: Option<real>, signal: seq<real>, dt: real, events: seq<nat>,
                                       m: nat)
    requires c.deadband >= 0.0 && Alternating(Outcomes(c, start, signal, dt), events) && m < |events|
    ensures Variation(signal[..events[m] + 1]) >= Times(2.0 * c.deadband, m)
    ensures m > 0 ==> Variation(signal[..events[m] + 1]) > Times(2.0 * c.deadband, m)
  {
    if m == 0 {
      VariationPositive(signal[..events[m] + 1]);
    } else {
      SwingsAddUp(c, start, signal, dt, events, m - 1);
      VariationBetween(signal, events[m - 1], events[m]);
      EventsSwing(c, start, signal, dt, events[m - 1], events[m]);
    }
  }

  /** n alternations cost the signal a total variation of more than two deadbands each but the first: noise of
      bounded variation cannot make an alarm chatter, whatever the limits, the spike filter and the sampling. */
  lemma AlternationsCostVariation(c: Config, start: Option<real>, signal: seq<real>, dt: real, events: seq<nat>)
    requires c.deadband >= 0.0 && Alternating(Outcomes(c, start, signal, dt), events) && |events| > 1
    ensures Variation(signal) > 2.0 * c.deadband * (|events| - 1) as real
  {
    var m := |events| - 1;
    SwingsAddUp(c, start, signal, dt, events, m);
    TimesMultiplies(2.0 * c.deadband, m);
    VariationGrows(signal, events[m] + 1);
  }

  /** A signal that stays inside a band two deadbands wide never both triggers and clears. */
  lemma NarrowSignalsAreSteady(c: Config, start: Option<real>, signal: seq<real>, dt: real, bottom: real)
    requires c.deadband >= 0.0
    requires forall k :: 0 <= k < |signal| ==> bottom <= signal[k] <= bottom + 2.0 * c.deadband
    ensures (forall k :: 0 <= k < |signal| ==> !Outcomes(c, start, signal, dt)[k].Trigger?) ||
            (forall k :: 0 <= k < |signal| ==> !Outcomes(c, start, signal, dt)[k].Clear?)
  {
    var o := Outcomes(c, start, signal, dt);
    forall i, j | 0 <= i < |signal| && 0 <= j < |signal| && o[i].Trigger? ensures !o[j].Clear? {
      if o[j].Clear? {
        EventsSwing(c, start, signal, dt, i, j);
      }
    }
  }

  // ---- The low side ----

  function Least(a: real, b: real): real {
    if a < b then a else b
  }

  /** A value that raises LowLow if any does. */
  function LowLowCandidate(c: Config): real {
    if c.lowEnabled then c.low - c.deadband
    else
      Least(c.lowLow - c.deadband - 1.0,
            Least(if c.highHighEnabled then c.highHigh + c.deadband else c.lowLow - c.deadband - 1.0,
                  if c.highEnabled then c.high + c.deadband else c.lowLow - c.deadband - 1.0))
  }

  /** Low is tested before LowLow, so the Critical LowLow alarm can be raised exactly when Low is switched off or
      lies below LowLow (and not above the high limits). */
  lemma LowLowReachable(c: Config)
    requires c.deadband >= 0.0
    ensures (exists value :: Check(c, value, value).Trigger? && Check(c, value, value).limit == LowLow) <==>
              c.alarmEnabled && c.lowLowEnabled
              && (c.lowEnabled ==> c.low < c.lowLow
                                   && (c.highHighEnabled ==> c.low - c.deadband <= c.highHigh + c.deadband)
                                   && (c.highEnabled ==> c.low - c.deadband <= c.high + c.deadband))
  {
    var w := LowLowCandidate(c);
    if c.alarmEnabled && c.lowLowEnabled
       && (c.lowEnabled ==> c.low < c.lowLow
                            && (c.highHighEnabled ==> c.low - c.deadband <= c.highHigh + c.deadband)
                            && (c.highEnabled ==> c.low - c.deadband <= c.high + c.deadband)) {
      assert Check(c, w, w).limit == LowLow;
    }
  }
}
