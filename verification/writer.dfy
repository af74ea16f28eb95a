/** The buffered response writer of the fan-out handler: each backend's
    handler writes into one of these, and the aggregator inspects what it
    captured. A handler talks to a response writer through three calls,
    modelled as a trace of `WriterOp`s. */
module Writer {
  import opened GoValues

  const StatusOK := 200
  const StatusRequestTimeout := 408
  const StatusExpectationFailed := 417

  /** One call a handler makes on its response writer. `SetHeader` stands
      for `w.Header().Set(name, value)`. */
  datatype WriterOp =
    | SetHeader(name: Bytes, value: Bytes)
    | WriteHeader(code: int)
    | Write(data: Bytes)

  /** What a buffered writer holds: the last status written (0 when no
      status was ever written) and the body bytes appended so far. */
  datatype Captured = Captured(status: int, body: Bytes)

  /** A freshly declared writer: no status, empty body. */
  const Fresh := Captured(0, [])

  /** A header map: `Header` hands out a new, empty one on every call, so
      whatever a handler sets in it is never seen again. */
  type HeaderMap = map<Bytes, seq<Bytes>>

  function Header(b: Captured): (h: HeaderMap)
    ensures h.Keys == {}
  {
    map[]
  }

  /** `WriteHeader` replaces the stored status and leaves the body alone. */
  function WriteHeaderTo(b: Captured, code: int): (r: Captured)
    ensures r.status == code && r.body == b.body
  {
    b.(status := code)
  }

  /** `Write` appends to the body and leaves the status alone. */
  function WriteTo(b: Captured, data: Bytes): (r: Captured)
    ensures r.status == b.status
    ensures |r.body| == |b.body| + |data|
    ensures r.body[..|b.body|] == b.body && r.body[|b.body|..] == data
  {
    b.(body := b.body + data)
  }

  function Apply(b: Captured, op: WriterOp): Captured
  {
    match op
    case SetHeader(_, _) => b
    case WriteHeader(code) => WriteHeaderTo(b, code)
    case Write(data) => WriteTo(b, data)
  }

  /** The writer after a handler made the calls `ops`, in order. */
  function Replay(b: Captured, ops: seq<WriterOp>): Captured
    decreases |ops|
  {
    if |ops| == 0 then b else Replay(Apply(b, ops[0]), ops[1..])
  }

  /** Replaying one or two calls is applying them in turn. */
  lemma ReplayShort(b: Captured, op1: WriterOp, op2: WriterOp)
    ensures Replay(b, [op1]) == Apply(b, op1)
    ensures Replay(b, [op1, op2]) == Apply(Apply(b, op1), op2)
  {
    assert [op1][1..] == [];
    assert Replay(Apply(b, op1), [op2]) == Apply(Apply(b, op1), op2) by {
      assert [op2][1..] == [];
    }
    assert [op1, op2][1..] == [op2];
  }

  /** Reference reading of a trace: does it write a status at all ... */
  predicate WritesStatus(ops: seq<WriterOp>)
  {
    exists i :: 0 <= i < |ops| && ops[i].WriteHeader?
  }

  /** ... and, if it does, the status of its last `WriteHeader` call. */
  function LastStatus(ops: seq<WriterOp>): int
    decreases |ops|
  {
    if |ops| == 0 then 0
    else if ops[|ops| - 1].WriteHeader? then ops[|ops| - 1].code
    else LastStatus(ops[..|ops| - 1])
  }

  /** Everything the trace writes, concatenated in call order. */
  function Payload(ops: seq<WriterOp>): Bytes
    decreases |ops|
  {
    if |ops| == 0 then []
    else if ops[|ops| - 1].Write? then Payload(ops[..|ops| - 1]) + ops[|ops| - 1].data
    else Payload(ops[..|ops| - 1])
  }

  lemma {:induction false} ReplaySnoc(b: Captured, ops: seq<WriterOp>, op: WriterOp)
    ensures Replay(b, ops + [op]) == Apply(Replay(b, ops), op)
    decreases |ops|
  {
    if |ops| == 0 {
      assert ops + [op] == [op];
    } else {
      assert (ops + [op])[1..] == ops[1..] + [op];
      ReplaySnoc(Apply(b, ops[0]), ops[1..], op);
    }
  }

  /** The buffered writer keeps exactly two things from any sequence of
      calls: the status of the last `WriteHeader` (the previous one if
      there is none), and every written byte appended in order. */
  lemma {:induction false} ReplayMeaning(b: Captured, ops: seq<WriterOp>)
    ensures Replay(b, ops).status == (if WritesStatus(ops) then LastStatus(ops) else b.status)
    ensures Replay(b, ops).body == b.body + Payload(ops)
    decreases |ops|
  {
    if |ops| > 0 {
      var init, last := ops[..|ops| - 1], ops[|ops| - 1];
      assert ops == init + [last];
      ReplaySnoc(b, init, last);
      ReplayMeaning(b, init);
      if last.WriteHeader? {
        assert WritesStatus(ops) by { assert ops[|ops| - 1].WriteHeader?; }
      } else {
        assert WritesStatus(ops) <==> WritesStatus(init) by {
          if WritesStatus(ops) {
            var i :| 0 <= i < |ops| && ops[i].WriteHeader?;
            assert init[i] == ops[i];
          }
          if WritesStatus(init) {
            var i :| 0 <= i < |init| && init[i].WriteHeader?;
            assert ops[i] == init[i];
          }
        }
      }
    }
  }

  /** A fresh writer replaying a trace ends with the last status written
      (0 for none) and the concatenation of all writes. */
  lemma FreshReplay(ops: seq<WriterOp>)
    ensures Replay(Fresh, ops) == Captured(if WritesStatus(ops) then LastStatus(ops) else 0, Payload(ops))
  {
    ReplayMeaning(Fresh, ops);
  }

  /** The writer's own test: a status, then a body. */
  lemma WriterTest(header: HeaderMap)
    requires header == Header(Fresh)
    ensures header.Keys == {}
    ensures Replay(Fresh, [WriteHeader(418)]).status == 418
    ensures Replay(Fresh, [WriteHeader(418), Write(Of("hello"))]) == Captured(418, Of("hello"))
  {
    ReplayShort(Fresh, WriteHeader(418), Write(Of("hello")));
  }

  /** The calls without the header edits. */
  function WithoutHeaders(ops: seq<WriterOp>): (r: seq<WriterOp>)
    ensures |r| <= |ops|
    ensures forall i :: 0 <= i < |r| ==> !r[i].SetHeader?
    decreases |ops|
  {
    if |ops| == 0 then []
    else if ops[0].SetHeader? then WithoutHeaders(ops[1..])
    else [ops[0]] + WithoutHeaders(ops[1..])
  }

  /** Headers a handler sets are lost in the buffered writer: the capture
      is the same with or without them. */
  lemma {:induction false} HeadersAreDiscarded(b: Captured, ops: seq<WriterOp>)
    ensures Replay(b, ops) == Replay(b, WithoutHeaders(ops))
    decreases |ops|
  {
    if |ops| > 0 {
      HeadersAreDiscarded(Apply(b, ops[0]), ops[1..]);
      if !ops[0].SetHeader? {
        var r := [ops[0]] + WithoutHeaders(ops[1..]);
        assert r[0] == ops[0] && r[1..] == WithoutHeaders(ops[1..]);
      }
    }
  }
}
