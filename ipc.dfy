/**
 * The local-socket transport's framing: a 4-byte big-endian length, then
 * that many payload bytes. A stream is modelled by the bytes still to be
 * read from it (reading returns the rest) or the bytes written to it.
 */
module Ipc {
  import opened Wrappers
  import opened Numeric

  datatype FrameError =
    /** `read_exact` ran out of input before filling its buffer. */
    | UnexpectedEof
    /** The payload's length does not fit in a `u32`. */
    | PayloadTooLarge

  /** `read_exact` of `n` bytes: those bytes and the rest of the stream. */
  function ReadExact(input: seq<byte>, n: nat): (r: Result<(seq<byte>, seq<byte>), FrameError>)
    ensures r.Err? <==> |input| < n
    ensures r.Ok? ==> |r.value.0| == n && r.value.0 + r.value.1 == input
  {
    if |input| < n then Err(UnexpectedEof) else Ok((input[..n], input[n..]))
  }

  /** `read_frame_sync`: the length prefix, then exactly that many bytes; the rest is left unread. */
  function ReadFrame(input: seq<byte>): (r: Result<(seq<byte>, seq<byte>), FrameError>)
    ensures r.Err? ==> r.error == UnexpectedEof
    ensures r.Err? <==> |input| < 4 || |input| < 4 + U32FromBe(input[..4])
    ensures r.Ok? ==> |input| >= 4 && |r.value.0| == U32FromBe(input[..4])
    ensures r.Ok? ==> input == U32ToBe(|r.value.0|) + r.value.0 + r.value.1
  {
    match ReadExact(input, 4)
    case Err(e) => Err(e)
    case Ok((lenBuf, rest)) =>
      var n := U32FromBe(lenBuf);
      match ReadExact(rest, n)
      case Err(e) => Err(e)
      case Ok((payload, rest')) =>
        assert input == lenBuf + payload + rest';
        Ok((payload, rest'))
  }

  /** `write_frame_sync`: the bytes written, or `PayloadTooLarge` before anything is written. */
  function WriteFrame(payload: seq<byte>): (r: Result<seq<byte>, FrameError>)
    ensures r.Err? <==> |payload| >= U32_LIMIT
    ensures r.Err? ==> r.error == PayloadTooLarge
    ensures r.Ok? ==> |r.value| == 4 + |payload| && r.value[4..] == payload
  {
    if |payload| >= U32_LIMIT then Err(PayloadTooLarge)
    else Ok(U32ToBe(|payload|) + payload)
  }

  /** The written prefix is the big-endian length of the payload. */
  lemma WrittenPrefix(payload: seq<byte>)
    requires |payload| < U32_LIMIT
    ensures WriteFrame(payload).value[..4] == U32ToBe(|payload|)
    ensures U32FromBe(WriteFrame(payload).value[..4]) == |payload|
  {
    U32BeRoundTrip(|payload|);
  }

  /** Reading back what was written yields the payload, and whatever followed it is left unconsumed. */
  lemma ReadWrite(payload: seq<byte>, rest: seq<byte>)
    requires |payload| < U32_LIMIT
    ensures ReadFrame(WriteFrame(payload).value + rest) == Ok((payload, rest))
  {
    var w := WriteFrame(payload).value;
    U32BeRoundTrip(|payload|);
    assert (w + rest)[..4] == U32ToBe(|payload|);
    assert (w + rest)[4..] == payload + rest;
  }

  /** Two frames written back to back are read back in order. */
  lemma TwoFrames(p1: seq<byte>, p2: seq<byte>)
    requires |p1| < U32_LIMIT && |p2| < U32_LIMIT
    ensures var stream := WriteFrame(p1).value + WriteFrame(p2).value;
      && ReadFrame(stream) == Ok((p1, WriteFrame(p2).value))
      && ReadFrame(ReadFrame(stream).value.1) == Ok((p2, []))
  {
    ReadWrite(p1, WriteFrame(p2).value);
    ReadWrite(p2, []);
    assert WriteFrame(p2).value + [] == WriteFrame(p2).value;
  }

  /** A frame cut short anywhere fails to read. */
  lemma TruncatedFrameFails(payload: seq<byte>, k: nat)
    requires |payload| < U32_LIMIT && k < 4 + |payload|
    ensures ReadFrame(WriteFrame(payload).value[..k]).Err?
  {
    var w := WriteFrame(payload).value;
    if k >= 4 {
      assert w[..k][..4] == w[..4];
      WrittenPrefix(payload);
    }
  }
}
