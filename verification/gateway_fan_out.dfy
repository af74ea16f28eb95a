/** Gateways behind the fan-out: what the aggregator makes of the replies
    that gateway sessions write. */
module GatewayFanOut {
  import opened GoValues
  import opened TeslaErrors
  import opened Writer
  import opened Gateway
  import opened FanOut

  /** What one gateway's reply leaves in its buffered writer. */
  function GatewayCapture(final: Option<Error>, data: Bytes): (c: Captured)
    ensures !IsSoftTimeout(c)
    ensures IsSuccess(c) <==> final.None?
    ensures final.None? ==> c.body == data
    ensures final == Some(Unauthorized) ==> c.status == 403
    ensures final.Some? && final != Some(Unauthorized) ==> c.status == 400
  {
    RespondCaptured(final, data);
    Replay(Fresh, Respond(final, data))
  }

  /** A gateway never answers 408, so with gateways as the handlers no
      backend is ever skipped as "not ready": the caller gets a usable
      answer exactly when some gateway had one, otherwise the first failure
      to arrive, and 417 only when there are no gateways at all. */
  lemma FanOutOverGateways(finals: seq<Option<Error>>, data: seq<Bytes>)
    requires |finals| == |data|
    ensures var arrivals := seq(|finals|, i requires 0 <= i < |finals| => GatewayCapture(finals[i], data[i]));
      && (Aggregate(arrivals).status == 0 <==> exists i :: 0 <= i < |finals| && finals[i].None?)
      && (Aggregate(arrivals).status == StatusExpectationFailed <==> |finals| == 0)
  {
    var arrivals := seq(|finals|, i requires 0 <= i < |finals| => GatewayCapture(finals[i], data[i]));
    SuccessIffSomeSuccess(arrivals);
    if exists i :: 0 <= i < |arrivals| && IsSuccess(arrivals[i]) {
      var i :| 0 <= i < |arrivals| && IsSuccess(arrivals[i]);
      assert finals[i].None?;
    }
    if exists i :: 0 <= i < |finals| && finals[i].None? {
      var i :| 0 <= i < |finals| && finals[i].None?;
      assert IsSuccess(arrivals[i]);
    }
    if |finals| > 0 && FirstSuccess(arrivals).None? {
      assert IsHardFailure(arrivals[0]);
      assert FirstHardFailure(arrivals).Some?;
    }
  }
}
