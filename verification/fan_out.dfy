/** The fan-out handler (`Handlers.ServeHTTP`): one inbound request is
    dispatched to every backend handler at once, each into its own buffered
    writer, and the captures are inspected in the order the handlers finish.
    Goroutines and the channel are replaced by that arrival order, given as
    a sequence; the model is a fold over it that yields the calls the
    aggregator makes on the caller's response writer. */
module FanOut {
  import opened GoValues
  import opened Writer

  /** A capture with no status written, or with 200, is a usable answer. */
  predicate IsSuccess(c: Captured) {
    c.status == 0 || c.status == StatusOK
  }

  /** A 408 marks a backend that is not ready yet: neither an answer nor a
      failure worth reporting. */
  predicate IsSoftTimeout(c: Captured) {
    c.status == StatusRequestTimeout
  }

  /** Every other status is a failure that may be reported. */
  predicate IsHardFailure(c: Captured) {
    !IsSuccess(c) && !IsSoftTimeout(c)
  }

  /** The selection loop. `bad` is the failure remembered so far. A usable
      answer ends the loop and only its body is written (its status is not
      copied); a non-usable answer is skipped when a failure is already
      remembered or when it is a 408, and remembered otherwise. When the
      arrivals run out, the remembered failure is replayed, or 417 is set. */
  function Scan(arrivals: seq<Captured>, bad: Option<Captured>): seq<WriterOp>
    decreases |arrivals|
  {
    if |arrivals| == 0 then
      match bad
      case None => [WriteHeader(StatusExpectationFailed)]
      case Some(b) => [WriteHeader(b.status), Write(b.body)]
    else
      var b := arrivals[0];
      if b.status != 0 && b.status != StatusOK then
        if bad.Some? then Scan(arrivals[1..], bad)
        else if b.status == StatusRequestTimeout then Scan(arrivals[1..], bad)
        else Scan(arrivals[1..], Some(b))
      else
        [Write(b.body)]
  }

  /** The calls the aggregator makes on the caller's writer. */
  function ServeOps(arrivals: seq<Captured>): seq<WriterOp>
  {
    Scan(arrivals, None)
  }

  /** Position of the first usable answer in arrival order, if any. */
  function FirstSuccess(arrivals: seq<Captured>): (r: Option<nat>)
    ensures r.Some? ==> r.value < |arrivals| && IsSuccess(arrivals[r.value])
    ensures r.Some? ==> forall j :: 0 <= j < r.value ==> !IsSuccess(arrivals[j])
    ensures r.None? ==> forall j :: 0 <= j < |arrivals| ==> !IsSuccess(arrivals[j])
    decreases |arrivals|
  {
    if |arrivals| == 0 then None
    else if IsSuccess(arrivals[0]) then Some(0)
    else match FirstSuccess(arrivals[1..])
      case None => None
      case Some(k) => Some(k + 1)
  }

  /** Position of the first reportable failure in arrival order, if any. */
  function FirstHardFailure(arrivals: seq<Captured>): (r: Option<nat>)
    ensures r.Some? ==> r.value < |arrivals| && IsHardFailure(arrivals[r.value])
    ensures r.Some? ==> forall j :: 0 <= j < r.value ==> !IsHardFailure(arrivals[j])
    ensures r.None? ==> forall j :: 0 <= j < |arrivals| ==> !IsHardFailure(arrivals[j])
    decreases |arrivals|
  {
    if |arrivals| == 0 then None
    else if IsHardFailure(arrivals[0]) then Some(0)
    else match FirstHardFailure(arrivals[1..])
      case None => None
      case Some(k) => Some(k + 1)
  }

  /** The selection policy stated by positions rather than by a loop: the
      first usable answer's body; failing that, the first reportable failure
      replayed; failing that, 417. */
  function PolicyOps(arrivals: seq<Captured>): seq<WriterOp>
  {
    match FirstSuccess(arrivals)
    case Some(i) => [Write(arrivals[i].body)]
    case None =>
      match FirstHardFailure(arrivals)
      case Some(k) => [WriteHeader(arrivals[k].status), Write(arrivals[k].body)]
      case None => [WriteHeader(StatusExpectationFailed)]
  }

  /** Once a failure is remembered, only a usable answer can displace it. */
  lemma {:induction false} ScanRemembering(arrivals: seq<Captured>, b: Captured)
    ensures Scan(arrivals, Some(b)) ==
      match FirstSuccess(arrivals)
      case Some(i) => [Write(arrivals[i].body)]
      case None => [WriteHeader(b.status), Write(b.body)]
    decreases |arrivals|
  {
    if |arrivals| > 0 && !IsSuccess(arrivals[0]) {
      ScanRemembering(arrivals[1..], b);
    }
  }

  /** The loop implements the policy. */
  lemma {:induction false} ServeOpsFollowsPolicy(arrivals: seq<Captured>)
    ensures ServeOps(arrivals) == PolicyOps(arrivals)
    decreases |arrivals|
  {
    if |arrivals| > 0 && !IsSuccess(arrivals[0]) {
      if IsSoftTimeout(arrivals[0]) {
        ServeOpsFollowsPolicy(arrivals[1..]);
      } else {
        ScanRemembering(arrivals[1..], arrivals[0]);
      }
    }
  }

  /** The response the policy promises, as a capture. */
  function PolicyOutcome(arrivals: seq<Captured>): Captured
  {
    match FirstSuccess(arrivals)
    case Some(i) => Captured(0, arrivals[i].body)
    case None =>
      match FirstHardFailure(arrivals)
      case Some(k) => arrivals[k]
      case None => Captured(StatusExpectationFailed, [])
  }

  lemma PolicyOpsOutcome(arrivals: seq<Captured>)
    ensures Replay(Fresh, PolicyOps(arrivals)) == PolicyOutcome(arrivals)
  {
    match FirstSuccess(arrivals)
    case Some(i) =>
      ReplayShort(Fresh, Write(arrivals[i].body), Write([]));
    case None =>
      match FirstHardFailure(arrivals)
      case Some(k) =>
        ReplayShort(Fresh, WriteHeader(arrivals[k].status), Write(arrivals[k].body));
      case None =>
        ReplayShort(Fresh, WriteHeader(StatusExpectationFailed), Write([]));
  }

  /** The response the caller observes, captured in a fresh buffered
      writer (as the handler's own tests do). */
  function Aggregate(arrivals: seq<Captured>): (r: Captured)
    ensures r == PolicyOutcome(arrivals)
    ensures |arrivals| == 0 ==> r == Captured(StatusExpectationFailed, [])
    ensures r.status != StatusRequestTimeout
    ensures r.status == 0 || r.status == StatusExpectationFailed
         || exists i :: 0 <= i < |arrivals| && arrivals[i].status == r.status
    ensures r.body == [] || exists i :: 0 <= i < |arrivals| && arrivals[i].body == r.body
  {
    ServeOpsFollowsPolicy(arrivals);
    PolicyOpsOutcome(arrivals);
    Replay(Fresh, ServeOps(arrivals))
  }

  /** The first usable answer wins: the caller gets its body and no status
      is written, whatever failures arrived before it. */
  lemma FirstSuccessWins(arrivals: seq<Captured>, i: nat)
    requires i < |arrivals| && IsSuccess(arrivals[i])
    requires forall j :: 0 <= j < i ==> !IsSuccess(arrivals[j])
    ensures ServeOps(arrivals) == [Write(arrivals[i].body)]
    ensures Aggregate(arrivals) == Captured(0, arrivals[i].body)
  {
    ServeOpsFollowsPolicy(arrivals);
    var k := FirstSuccess(arrivals).value;
    assert k == i;
  }

  /** Nothing that arrives after the winning answer is examined. */
  lemma LaterArrivalsIgnored(arrivals: seq<Captured>, i: nat, later: seq<Captured>)
    requires i < |arrivals| && IsSuccess(arrivals[i])
    requires forall j :: 0 <= j < i ==> !IsSuccess(arrivals[j])
    ensures Aggregate(arrivals[..i + 1] + later) == Aggregate(arrivals[..i + 1])
  {
    var p := arrivals[..i + 1];
    assert (p + later)[..i + 1] == p;
    FirstSuccessWins(p, i);
    FirstSuccessWins(p + later, i);
  }

  /** Without a usable answer, the first reportable failure is returned
      with its own status and body; later failures are discarded. */
  lemma FirstFailureReported(arrivals: seq<Captured>, k: nat)
    requires forall j :: 0 <= j < |arrivals| ==> !IsSuccess(arrivals[j])
    requires k < |arrivals| && IsHardFailure(arrivals[k])
    requires forall j :: 0 <= j < k ==> !IsHardFailure(arrivals[j])
    ensures ServeOps(arrivals) == [WriteHeader(arrivals[k].status), Write(arrivals[k].body)]
    ensures Aggregate(arrivals) == arrivals[k]
  {
    ServeOpsFollowsPolicy(arrivals);
    var m := FirstHardFailure(arrivals).value;
    assert m == k;
  }

  /** When nothing usable and nothing reportable arrives (every backend
      answered 408, or there were none), the caller gets 417 and no body. */
  lemma OnlySoftTimeouts(arrivals: seq<Captured>)
    requires forall j :: 0 <= j < |arrivals| ==> IsSoftTimeout(arrivals[j])
    ensures ServeOps(arrivals) == [WriteHeader(StatusExpectationFailed)]
    ensures Aggregate(arrivals) == Captured(StatusExpectationFailed, [])
  {
    ServeOpsFollowsPolicy(arrivals);
    assert FirstSuccess(arrivals).None?;
    assert FirstHardFailure(arrivals).None?;
  }

  /** The aggregate is a success exactly when some backend answered
      usably; so whether the caller gets an answer does not depend on the
      order in which the backends finish. */
  lemma SuccessIffSomeSuccess(arrivals: seq<Captured>)
    ensures Aggregate(arrivals).status == 0 <==> exists i :: 0 <= i < |arrivals| && IsSuccess(arrivals[i])
  {
    ServeOpsFollowsPolicy(arrivals);
    match FirstSuccess(arrivals)
    case Some(i) =>
    case None =>
      match FirstHardFailure(arrivals)
      case Some(k) =>
      case None =>
  }

  lemma SuccessIndependentOfArrivalOrder(arrivals: seq<Captured>, reordered: seq<Captured>)
    requires multiset(arrivals) == multiset(reordered)
    ensures Aggregate(arrivals).status == 0 <==> Aggregate(reordered).status == 0
  {
    SuccessIffSomeSuccess(arrivals);
    SuccessIffSomeSuccess(reordered);
    if exists i :: 0 <= i < |arrivals| && IsSuccess(arrivals[i]) {
      var i :| 0 <= i < |arrivals| && IsSuccess(arrivals[i]);
      assert arrivals[i] in multiset(reordered);
      var j :| 0 <= j < |reordered| && reordered[j] == arrivals[i];
    }
    if exists j :: 0 <= j < |reordered| && IsSuccess(reordered[j]) {
      var j :| 0 <= j < |reordered| && IsSuccess(reordered[j]);
      assert reordered[j] in multiset(arrivals);
      var i :| 0 <= i < |arrivals| && arrivals[i] == reordered[j];
    }
  }

  /** The handler's table tests, as arrival sequences. */
  lemma TableTests()
    ensures Aggregate([]) == Captured(417, [])
    ensures Aggregate([Captured(0, Of("hello"))]) == Captured(0, Of("hello"))
    ensures Aggregate([Captured(418, [])]) == Captured(418, [])
    ensures Aggregate([Captured(0, Of("hello")), Captured(0, Of("world"))]) == Captured(0, Of("hello"))
    ensures Aggregate([Captured(418, []), Captured(0, Of("world"))]) == Captured(0, Of("world"))
    ensures Aggregate([Captured(418, []), Captured(400, [])]) == Captured(418, [])
    ensures Aggregate([Captured(408, []), Captured(0, Of("world"))]) == Captured(0, Of("world"))
  {
    FirstSuccessWins([Captured(0, Of("hello"))], 0);
    FirstSuccessWins([Captured(0, Of("hello")), Captured(0, Of("world"))], 0);
    FirstSuccessWins([Captured(418, []), Captured(0, Of("world"))], 1);
    FirstFailureReported([Captured(418, [])], 0);
    FirstFailureReported([Captured(418, []), Captured(400, [])], 0);
    FirstSuccessWins([Captured(408, []), Captured(0, Of("world"))], 1);
  }
}
