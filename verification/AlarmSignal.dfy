/** From the signal to the alarm: the limit check of the parse thread feeding the alarm engine. */
module AlarmSignal {
  import opened AlarmTypes
  import opened AlarmEngineState
  import D = AlarmEngineOnDelay
  import L = LimitCheck

  /** The on-delay that checkAlarmLimits leaves at its default. */
  const DEFAULT_ON_DELAY_MS := 3000

  /** The check of sample v of tag t led to this operation. */
  predicate Requests(c: L.Config, v: real, op: Op, t: nat) {
    match L.Check(c, v, v)
    case Trigger(limit, threshold, priority) =>
      op.OpTrigger? && op.tag == t && op.args == Trigger(limit, v, threshold, priority, DEFAULT_ON_DELAY_MS)
    case Clear => op.OpClear? && op.tag == t && op.returnValue == v
    case Quiet => true
  }

  /** In this run every trigger of the tag comes from the check of a sample, and every checked sample makes its request;
      samples[k] is the value checked at step k. */
  ghost predicate Fed(c: L.Config, ops: seq<Timed>, samples: map<nat, real>, t: nat) {
    && (forall k: nat :: k < |ops| && k in samples ==> Requests(c, samples[k], ops[k].op, t))
    && (forall k: nat :: k < |ops| && ops[k].op.OpTrigger? && ops[k].op.tag == t ==>
          k in samples && L.Check(c, samples[k], samples[k]).Trigger?)
  }

  lemma {:induction false} TriggerStep(c: L.Config, states: seq<Engine>, ops: seq<Timed>, samples: map<nat, real>,
                                       t: nat, j: nat, k: nat, i: nat) returns (m: nat)
    requires Fed(c, ops, samples, t) && j <= k <= |ops| && |states| == |ops| + 1
    requires i < |D.AcceptedTriggers(states, ops, t, j, k)|
    ensures j <= m < k && m in samples
    ensures var a := D.AcceptedTriggers(states, ops, t, j, k)[i];
            L.Check(c, samples[m], samples[m]) == L.Trigger(a.limit, a.threshold, a.priority) && a.value == samples[m]
    decreases k
  {
    var before := D.AcceptedTriggers(states, ops, t, j, k - 1);
    if i < |before| {
      m := TriggerStep(c, states, ops, samples, t, j, k - 1, i);
    } else {
      m := k - 1;
      assert ops[m].op.OpTrigger? && ops[m].op.tag == t;
      assert Requests(c, samples[m], ops[m].op, t);
    }
  }

  /** An alarm that appears had its signal beyond a limit by more than the deadband more than 3 s earlier, and never
      inside all limits by the deadband since. It names a limit that some sample in between exceeded, with that
      limit's threshold. */
  lemma AlarmMeansOutOfRange(c: L.Config, states: seq<Engine>, ops: seq<Timed>, samples: map<nat, real>, k: nat, t: nat)
    returns (j: nat, m: nat)
    requires Run(states, ops) && k < |ops| && t !in states[k].active && t in states[k + 1].active
    requires c.deadband >= 0.0 && Fed(c, ops, samples, t)
    ensures j <= m < k && j in samples && m in samples && ops[k].now - ops[j].now > DEFAULT_ON_DELAY_MS
    ensures exists l :: L.Beyond(c, l, samples[j])
    ensures forall i: nat :: j <= i <= k && i in samples ==> exists l :: !L.Behind(c, l, samples[i])
    ensures var ev := states[k + 1].active[t];
            L.Beyond(c, ev.limit, samples[m]) && ev.thresholdValue == L.ThresholdOf(c, ev.limit)
  {
    var d;
    j, d := D.RaisedOnlyAfterDelay(states, ops, k, t);
    assert ops[j].op.OpTrigger? && ops[j].op.tag == t && j in samples && Requests(c, samples[j], ops[j].op, t);
    L.CheckMeans(c, samples[j]);
    var l0 :| L.Beyond(c, l0, samples[j]);
    forall i: nat | j <= i <= k && i in samples ensures exists l :: !L.Behind(c, l, samples[i]) {
      assert Requests(c, samples[i], ops[i].op, t);
      assert !D.IsClear(ops[i].op, t);
      L.CheckMeans(c, samples[i]);
    }
    var triggers := D.AcceptedTriggers(states, ops, t, j, k);
    var n :| 0 <= n < |triggers| && triggers[n].limit == d.limit && triggers[n].threshold == d.threshold;
    m := TriggerStep(c, states, ops, samples, t, j, k, n);
    L.ReportsItsLimit(c, samples[m]);
  }
}
