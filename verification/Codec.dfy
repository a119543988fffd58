// Messages framed by their length on a byte stream (internal/privilege/protocol/codec.go). The JSON inside a frame is
// an abstract coding.
module CodecSpec {
  import opened Wrappers

  type Byte = x: int | 0 <= x < 256

  type Bytes = seq<Byte>

  const HEADER: nat := 4
  const MAX_FRAME_SIZE: nat := 0x10_0000

  // How a message is turned into the contents of a frame and back, and which messages pass validation.
  datatype Coding<!M> = Coding(encode: M -> Bytes, decode: Bytes -> Option<M>, valid: M -> bool)

  datatype Failure = EndOfStream | UnexpectedEnd | InvalidFrame | FrameTooLarge | InvalidMessage | Refused

  ghost predicate Invertible<M(!new)>(coding: Coding<M>) {
    forall m: M :: coding.valid(m) ==> coding.decode(coding.encode(m)) == Some(m)
  }

  function BigEndian(n: nat): Bytes
    requires n < 0x1_0000_0000
  {
    [n / 0x100_0000, n / 0x1_0000 % 256, n / 0x100 % 256, n % 256]
  }

  function Number(header: Bytes): nat
    requires |header| == HEADER
  {
    header[0] as int * 0x100_0000 + header[1] as int * 0x1_0000 + header[2] as int * 0x100 + header[3] as int
  }

  // Filling a buffer of n bytes: an empty stream is at its end, a shorter one ends too soon.
  function TakeFull(stream: Bytes, n: nat): Result<Bytes, Failure> {
    if |stream| >= n then Success(stream[..n])
    else if |stream| == 0 then Failure(EndOfStream)
    else Failure(UnexpectedEnd)
  }

  datatype Reading<+M> = Reading(result: Result<M, Failure>, rest: Bytes)

  function ReadOne<M>(coding: Coding<M>, stream: Bytes): Reading<M> {
    var header := TakeFull(stream, HEADER);
    if header.Failure? then Reading(Failure(header.error), [])
    else
      var size, rest := Number(header.value), stream[HEADER..];
      if size == 0 then Reading(Failure(InvalidFrame), rest)
      else if size > MAX_FRAME_SIZE then Reading(Failure(FrameTooLarge), rest)
      else
        var frame := TakeFull(rest, size);
        if frame.Failure? then Reading(Failure(frame.error), [])
        else
          var message := coding.decode(frame.value);
          if message.None? then Reading(Failure(InvalidMessage), rest[size..])
          else if !coding.valid(message.value) then Reading(Failure(Refused), rest[size..])
          else Reading(Success(message.value), rest[size..])
  }

  // Everything up to the first failure.
  function ReadAll<M>(coding: Coding<M>, stream: Bytes): (seq<M>, Failure)
    decreases |stream|
  {
    var one := ReadOne(coding, stream);
    if one.result.Failure? then ([], one.result.error)
    else
      var (messages, failure) := ReadAll(coding, one.rest);
      ([one.result.value] + messages, failure)
  }

  function Framed<M>(coding: Coding<M>, m: M): Result<Bytes, Failure> {
    var frame := coding.encode(m);
    if !coding.valid(m) then Failure(Refused)
    else if |frame| == 0 then Failure(InvalidFrame)
    else if |frame| > MAX_FRAME_SIZE then Failure(FrameTooLarge)
    else Success(BigEndian(|frame|) + frame)
  }

  predicate Writable<M>(coding: Coding<M>, m: M) { Framed(coding, m).Success? }

  predicate AllWritable<M>(coding: Coding<M>, messages: seq<M>) {
    forall i :: 0 <= i < |messages| ==> Writable(coding, messages[i])
  }

  function WriteAll<M>(coding: Coding<M>, messages: seq<M>): Bytes
    requires AllWritable(coding, messages)
  {
    if messages == [] then [] else Framed(coding, messages[0]).value + WriteAll(coding, messages[1..])
  }

  // --- Properties ---

  // What is written is a length of four bytes, the highest first, and the contents; a message is written exactly if it
  // passes validation and its contents are neither empty nor longer than a mebibyte.
  lemma FrameIs<M>(coding: Coding<M>, m: M)
    ensures Framed(coding, m).Success? <==> coding.valid(m) && 1 <= |coding.encode(m)| <= 1024 * 1024
    ensures Framed(coding, m).Success? ==>
              var frame := Framed(coding, m).value;
              && frame[4..] == coding.encode(m) && |frame| >= 4
              && |frame| - 4
                 == ((frame[0] as int * 256 + frame[1] as int) * 256 + frame[2] as int) * 256 + frame[3] as int
  {
    var n := |coding.encode(m)|;
    if 1 <= n <= MAX_FRAME_SIZE {
      NumberInvertsBigEndian(n);
    }
  }

  lemma NumberInvertsBigEndian(n: nat)
    requires n < 0x1_0000_0000
    ensures Number(BigEndian(n)) == n
  {
    assert n / 0x100 == 256 * (n / 0x1_0000) + n / 0x100 % 256;
    assert n / 0x1_0000 == 256 * (n / 0x100_0000) + n / 0x1_0000 % 256;
  }

  // Reading what was just written gives the message and leaves what follows.
  lemma ReadInvertsWrite<M(!new)>(coding: Coding<M>, m: M, rest: Bytes)
    requires Invertible(coding) && Writable(coding, m)
    ensures ReadOne(coding, Framed(coding, m).value + rest) == Reading(Success(m), rest)
  {
    var frame := coding.encode(m);
    var header := BigEndian(|frame|);
    var stream := Framed(coding, m).value + rest;
    NumberInvertsBigEndian(|frame|);
    assert stream[..HEADER] == header;
    assert stream[HEADER..] == frame + rest;
    assert (frame + rest)[..|frame|] == frame && (frame + rest)[|frame|..] == rest;
  }

  // A frame cut short is no message: it ends too soon, unless it is cut before its first byte or right after its
  // header, which both look like a proper end.
  lemma CutFrameFails<M>(coding: Coding<M>, m: M, k: nat)
    requires Writable(coding, m) && k < |Framed(coding, m).value|
    ensures ReadOne(coding, Framed(coding, m).value[..k]).result
         == Failure(if k == 0 || k == HEADER then EndOfStream else UnexpectedEnd)
  {
    var frame := coding.encode(m);
    var stream := Framed(coding, m).value[..k];
    NumberInvertsBigEndian(|frame|);
    if k >= HEADER {
      assert stream[..HEADER] == BigEndian(|frame|);
    }
  }

  // How many messages lie complete within the first k bytes.
  function Complete<M>(coding: Coding<M>, messages: seq<M>, k: nat): (count: nat)
    requires AllWritable(coding, messages)
    ensures count <= |messages|
  {
    if messages == [] || k < |Framed(coding, messages[0]).value| then 0
    else 1 + Complete(coding, messages[1..], k - |Framed(coding, messages[0]).value|)
  }

  // How many bytes are left over after those.
  function Leftover<M>(coding: Coding<M>, messages: seq<M>, k: nat): nat
    requires AllWritable(coding, messages)
  {
    if messages == [] || k < |Framed(coding, messages[0]).value| then k
    else Leftover(coding, messages[1..], k - |Framed(coding, messages[0]).value|)
  }

  // Any truncation yields exactly the complete leading messages, and then an end or an error.
  lemma {:induction false} TruncationKeepsCompleteMessages<M(!new)>(coding: Coding<M>, messages: seq<M>, k: nat)
    requires Invertible(coding) && AllWritable(coding, messages) && k <= |WriteAll(coding, messages)|
    ensures var left := Leftover(coding, messages, k);
            ReadAll(coding, WriteAll(coding, messages)[..k])
            == (messages[..Complete(coding, messages, k)],
                if left == 0 || left == HEADER then EndOfStream else UnexpectedEnd)
    decreases |messages|
  {
    hide ReadOne, Framed;
    if messages != [] {
      var first, rest := Framed(coding, messages[0]).value, WriteAll(coding, messages[1..]);
      var stream := WriteAll(coding, messages)[..k];
      if k < |first| {
        assert stream == first[..k];
        CutFrameFails(coding, messages[0], k);
      } else {
        assert stream == first + rest[..k - |first|];
        ReadInvertsWrite(coding, messages[0], rest[..k - |first|]);
        TruncationKeepsCompleteMessages(coding, messages[1..], k - |first|);
        var n := Complete(coding, messages[1..], k - |first|);
        assert [messages[0]] + messages[1..][..n] == messages[..n + 1];
      }
    } else {
      NothingIsTheEnd(coding);
    }
  }

  lemma NothingIsTheEnd<M>(coding: Coding<M>)
    ensures ReadOne(coding, []).result == Failure(EndOfStream)
  {
  }

  lemma {:induction false} AllIsComplete<M>(coding: Coding<M>, messages: seq<M>)
    requires AllWritable(coding, messages)
    ensures Complete(coding, messages, |WriteAll(coding, messages)|) == |messages|
    ensures Leftover(coding, messages, |WriteAll(coding, messages)|) == 0
  {
    if messages != [] {
      AllIsComplete(coding, messages[1..]);
    }
  }

  // Reading everything that was written gives exactly the messages, and then the end.
  lemma ReadAllInvertsWriteAll<M(!new)>(coding: Coding<M>, messages: seq<M>)
    requires Invertible(coding) && AllWritable(coding, messages)
    ensures ReadAll(coding, WriteAll(coding, messages)) == (messages, EndOfStream)
  {
    var stream := WriteAll(coding, messages);
    AllIsComplete(coding, messages);
    TruncationKeepsCompleteMessages(coding, messages, |stream|);
    assert stream[..|stream|] == stream && messages[..|messages|] == messages;
  }
}

// The reader and the writer as they run.
module Codec {
  import opened Wrappers
  import opened CodecSpec

  // A stream that hands out what it holds in pieces of any size.
  class ByteSource {
    const pieces: nat -> nat
    var stream: Bytes
    var clock: nat

    constructor (pieces: nat -> nat, stream: Bytes)
      ensures this.pieces == pieces && this.stream == stream
    {
      this.pieces, this.stream, clock := pieces, stream, 0;
    }

    // At least one byte if there is any, and no more than asked for.
    method Read(limit: nat) returns (piece: Bytes)
      requires limit > 0
      modifies this
      ensures |piece| <= limit && piece + stream == old(stream) && (piece == [] ==> old(stream) == [])
    {
      var most := if |stream| < limit then |stream| else limit;
      var n := if pieces(clock) == 0 then 1 else pieces(clock);
      n := if n > most then most else n;
      piece, stream, clock := stream[..n], stream[n..], clock + 1;
    }

    // However the bytes arrive.
    method ReadFull(n: nat) returns (result: Result<Bytes, Failure>)
      modifies this
      ensures result == TakeFull(old(stream), n)
      ensures stream == if result.Success? then old(stream)[n..] else []
    {
      var buffer: Bytes := [];
      while |buffer| < n
        invariant |buffer| <= n && buffer + stream == old(stream)
        decreases n - |buffer|
      {
        var piece := Read(n - |buffer|);
        if piece == [] {
          return Failure(if |buffer| == 0 then EndOfStream else UnexpectedEnd);
        }
        buffer := buffer + piece;
      }
      return Success(buffer);
    }

    method ReadMessage<M>(coding: Coding<M>) returns (result: Result<M, Failure>)
      modifies this
      ensures Reading(result, stream) == ReadOne(coding, old(stream))
    {
      var header := ReadFull(HEADER);
      if header.Failure? {
        return Failure(header.error);
      }
      var size := Number(header.value);
      if size == 0 {
        return Failure(InvalidFrame);
      }
      if size > MAX_FRAME_SIZE {
        return Failure(FrameTooLarge);
      }
      var frame := ReadFull(size);
      if frame.Failure? {
        return Failure(frame.error);
      }
      var message := coding.decode(frame.value);
      if message.None? {
        return Failure(InvalidMessage);
      }
      if !coding.valid(message.value) {
        return Failure(Refused);
      }
      return Success(message.value);
    }

    method ReadMessages<M>(coding: Coding<M>) returns (messages: seq<M>, failure: Failure)
      modifies this
      ensures (messages, failure) == ReadAll(coding, old(stream))
    {
      messages := [];
      ghost var all := ReadAll(coding, stream);
      while true
        invariant messages + ReadAll(coding, stream).0 == all.0 && ReadAll(coding, stream).1 == all.1
        decreases |stream|
      {
        ghost var before := stream;
        var result := ReadMessage(coding);
        if result.Failure? {
          assert ReadAll(coding, before).0 == [] && messages + [] == messages;
          return messages, result.error;
        }
        ghost var more := ReadAll(coding, stream).0;
        assert messages + ([result.value] + more) == messages + [result.value] + more;
        messages := messages + [result.value];
      }
    }
  }

  // A pipe that may take only the beginning of what it is given, and then fails.
  class ByteSink {
    const accepts: nat -> Option<nat>
    var written: Bytes
    var clock: nat

    constructor (accepts: nat -> Option<nat>)
      ensures this.accepts == accepts && written == []
    {
      this.accepts, written, clock := accepts, [], 0;
    }

    method Write(bytes: Bytes) returns (ok: bool)
      modifies this
      ensures old(written) <= written <= old(written) + bytes
      ensures ok ==> written == old(written) + bytes
    {
      var limit := accepts(clock);
      ok := limit.None?;
      written := written + if limit.None? || limit.value > |bytes| then bytes else bytes[..limit.value];
      clock := clock + 1;
    }

    // A message that is not written in full leaves the beginning of its frame, or nothing at all.
    method WriteMessage<M>(coding: Coding<M>, m: M) returns (result: Option<Failure>, ok: bool)
      modifies this
      ensures result == if Writable(coding, m) then None else Some(Framed(coding, m).error)
      ensures result.Some? ==> !ok && written == old(written)
      ensures result.None? ==> old(written) <= written <= old(written) + Framed(coding, m).value
      ensures ok ==> written == old(written) + Framed(coding, m).value
    {
      if !coding.valid(m) {
        return Some(Refused), false;
      }
      var frame := coding.encode(m);
      if |frame| == 0 {
        return Some(InvalidFrame), false;
      }
      if |frame| > MAX_FRAME_SIZE {
        return Some(FrameTooLarge), false;
      }
      var header := BigEndian(|frame|);
      ok := Write(header);
      if ok {
        ghost var middle := written;
        ok := Write(frame);
        assert middle + frame == old(written) + (header + frame);
      } else {
        assert old(written) + (header + frame) == old(written) + header + frame;
      }
      result := None;
    }
  }
}
