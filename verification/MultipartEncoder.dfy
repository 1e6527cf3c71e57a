/**
  The two encoders of MultipartFormData.swift, over streams that deliver and accept bytes in arbitrary
  pieces: `Encode` collects the form in memory, `WriteEncodedData` writes it to an output stream.
 */
module MultipartEncoder {
  import opened Wrappers
  import opened Octets
  import opened MultipartFormat

  const STREAM_BUFFER_SIZE: nat := 1024

  datatype EncodingError =
    | BodyPartInvalid(reason: nat)
    | InputStreamReadFailed(code: int)
    | UnexpectedInputStreamLength(bytesExpected: nat, bytesRead: nat)
    | OutputStreamWriteFailed(code: int)

  // ---------------------------------------------------------------------------------------------
  // What the streams do

  /** What one read finds; after the last event the stream says that it has no bytes available. */
  datatype ReadEvent = Chunk(data: Bytes) | EndOfStream | ReadFailure(code: int)

  predicate Readable(events: seq<ReadEvent>) {
    forall i :: 0 <= i < |events| && events[i].Chunk? ==> 0 < |events[i].data| <= STREAM_BUFFER_SIZE
  }

  /** All bytes of a stream, however it cuts them up. */
  function StreamContent(events: seq<ReadEvent>): Result<Bytes, EncodingError> {
    if events == [] then Success([])
    else
      match events[0]
      case Chunk(data) => Behind(data, StreamContent(events[1..]))
      case EndOfStream => Success([])
      case ReadFailure(code) => Failure(InputStreamReadFailed(code))
  }

  function Behind(done: Bytes, rest: Result<Bytes, EncodingError>): Result<Bytes, EncodingError> {
    match rest
    case Success(bytes) => Success(done + bytes)
    case Failure(e) => Failure(e)
  }

  /** The bytes of the first n events, which are chunks. */
  function Joined(events: seq<ReadEvent>, n: nat): Bytes
    requires n <= |events| && forall i :: 0 <= i < n ==> events[i].Chunk?
  {
    if n == 0 then [] else Joined(events, n - 1) + events[n-1].data
  }

  /** A stream that delivers n chunks and then ends, or fails: it is their bytes, or that error. */
  lemma {:induction false} StreamIs(events: seq<ReadEvent>, n: nat)
    requires n <= |events| && forall i :: 0 <= i < n ==> events[i].Chunk?
    requires n < |events| ==> !events[n].Chunk?
    ensures n == |events| || events[n].EndOfStream? ==> StreamContent(events) == Success(Joined(events, n))
    ensures n < |events| && events[n].ReadFailure? ==> StreamContent(events) == Failure(InputStreamReadFailed(events[n].code))
  {
    if n > 0 {
      assert forall i :: 0 <= i < n - 1 ==> events[1..][i] == events[i+1];
      StreamIs(events[1..], n - 1);
      JoinedFirst(events, n);
    }
  }

  lemma {:induction false} JoinedFirst(events: seq<ReadEvent>, n: nat)
    requires 0 < n <= |events| && forall i :: 0 <= i < n ==> events[i].Chunk?
    ensures forall i :: 0 <= i < n - 1 ==> events[1..][i].Chunk?
    ensures Joined(events, n) == events[0].data + Joined(events[1..], n - 1)
  {
    assert forall i :: 0 <= i < n - 1 ==> events[1..][i] == events[i+1];
    if n == 1 {
      assert Joined(events, 1) == Joined(events, 0) + events[0].data;
      assert [] + events[0].data == events[0].data + [];
    } else {
      JoinedFirst(events, n - 1);
      var a, b, c := events[0].data, Joined(events[1..], n - 2), events[n-1].data;
      assert a + b + c == a + (b + c);
    }
  }

  lemma BehindTwice(a: Bytes, b: Bytes, rest: Result<Bytes, EncodingError>)
    ensures Behind(a + b, rest) == Behind(a, Behind(b, rest))
  {
    if rest.Success? { assert a + b + rest.value == a + (b + rest.value); }
  }

  lemma BehindNothing(bytes: Bytes, rest: Result<Bytes, EncodingError>)
    ensures Behind([], rest) == rest
    ensures Behind(bytes, Success([])) == Success(bytes)
  {
    if rest.Success? { assert [] + rest.value == rest.value; }
    assert bytes + [] == bytes;
  }

  /** What one round of the write loop meets. */
  datatype WriteEvent = Accept(extra: nat) | NoSpace | WriteFailure(code: int)

  /** The output stream never says that it has no space. */
  ghost predicate AlwaysRoom(plan: nat -> WriteEvent) {
    forall i: nat :: !plan(i).NoSpace?
  }

  ghost predicate NeverFails(plan: nat -> WriteEvent) {
    forall i: nat :: !plan(i).WriteFailure?
  }

  /** One of the first n rounds met no space. */
  ghost predicate Denied(plan: nat -> WriteEvent, n: nat) {
    exists i: nat :: i < n && plan(i).NoSpace?
  }

  // ---------------------------------------------------------------------------------------------
  // What has been written when bytes are missing

  /** `a` is `b` with some bytes left out. */
  predicate Thinned(a: Bytes, b: Bytes)
    decreases |b|
  {
    if a == [] then true
    else if b == [] then false
    else (a[0] == b[0] && Thinned(a[1..], b[1..])) || Thinned(a, b[1..])
  }

  lemma {:induction false} ThinnedLength(a: Bytes, b: Bytes)
    requires Thinned(a, b)
    ensures |a| <= |b| && (|a| == |b| ==> a == b)
    decreases |b|
  {
    if a != [] {
      if a[0] == b[0] && Thinned(a[1..], b[1..]) {
        ThinnedLength(a[1..], b[1..]);
        assert a == [a[0]] + a[1..] && b == [b[0]] + b[1..];
      } else {
        ThinnedLength(a, b[1..]);
      }
    }
  }

  lemma {:induction false} ThinnedPrefix(b: Bytes, n: nat)
    requires n <= |b|
    ensures Thinned(b[..n], b)
  {
    if n > 0 {
      ThinnedPrefix(b[1..], n - 1);
      assert b[..n][1..] == b[1..][..n-1];
    }
  }

  lemma {:induction false} ThinnedAppend(a: Bytes, b: Bytes, c: Bytes, d: Bytes)
    requires Thinned(a, b) && Thinned(c, d)
    ensures Thinned(a + c, b + d)
    decreases |b|
  {
    if b == [] {
      assert a + c == c && b + d == d;
    } else {
      assert (b + d)[0] == b[0] && (b + d)[1..] == b[1..] + d;
      if a == [] {
        ThinnedAppend([], b[1..], c, d);
        assert [] + c == c == a + c;
      } else if a[0] == b[0] && Thinned(a[1..], b[1..]) {
        ThinnedAppend(a[1..], b[1..], c, d);
        assert (a + c)[0] == a[0] && (a + c)[1..] == a[1..] + c;
      } else {
        ThinnedAppend(a, b[1..], c, d);
      }
    }
  }

  /**
    A write of `data` has led from one state of the output to another without an error: everything has been
    written unless the stream was found without space, and something is missing if that was so for the
    first time.
   */
  predicate Wrote(before: Bytes, after: Bytes, data: Bytes, starvedBefore: bool, starved: bool) {
    && before <= after && Thinned(after[|before|..], data)
    && (starvedBefore ==> starved)
    && (!starved ==> after == before + data)
    && (!starvedBefore && starved ==> |after| < |before| + |data|)
  }

  lemma WroteNothing(before: Bytes, starved: bool)
    ensures Wrote(before, before, [], starved, starved)
  {
  }

  lemma WroteThen(a: Bytes, b: Bytes, c: Bytes, x: Bytes, y: Bytes, sa: bool, sb: bool, sc: bool)
    requires Wrote(a, b, x, sa, sb) && Wrote(b, c, y, sb, sc)
    ensures Wrote(a, c, x + y, sa, sc)
  {
    ThinnedAppend(b[|a|..], x, c[|b|..], y);
    assert c[|a|..] == b[|a|..] + c[|b|..];
    ThinnedLength(b[|a|..], x);
    ThinnedLength(c[|b|..], y);
  }

  /** From the start of the output: it is complete exactly if the stream was never found without space. */
  lemma WroteAll(after: Bytes, data: Bytes, starved: bool)
    requires Wrote([], after, data, false, starved)
    ensures Thinned(after, data) && (after == data <==> !starved)
  {
    assert after[0..] == after && [] + data == data;
  }

  // ---------------------------------------------------------------------------------------------
  // The encodings of a list of appended parts

  datatype PartSpec = PartSpec(headers: seq<Header>, events: seq<ReadEvent>, declared: nat)

  function Opening(boundary: Bytes, headers: seq<Header>, first: bool): Bytes {
    BoundaryData(if first then Initial else Encapsulated, boundary) + EncodeHeaders(headers)
  }

  function Closing(boundary: Bytes, last: bool): Bytes {
    if last then BoundaryData(Final, boundary) else []
  }

  /** The body that the in-memory encoder accepts: it checks the declared length. */
  function CheckedBody(p: PartSpec): Result<Bytes, EncodingError> {
    match StreamContent(p.events)
    case Failure(e) => Failure(e)
    case Success(body) =>
      if |body| == p.declared then Success(body)
      else Failure(UnexpectedInputStreamLength(p.declared, |body|))
  }

  /** The parts from some position on, with the bodies found by `checked` or without the check. */
  function FormFrom(boundary: Bytes, parts: seq<PartSpec>, first: bool, checked: bool): Result<Bytes, EncodingError> {
    if parts == [] then Success([])
    else
      match if checked then CheckedBody(parts[0]) else StreamContent(parts[0].events)
      case Failure(e) => Failure(e)
      case Success(body) =>
        Behind(Opening(boundary, parts[0].headers, first) + body + Closing(boundary, |parts| == 1),
               FormFrom(boundary, parts[1..], false, checked))
  }

  function InMemory(boundary: Bytes, parts: seq<PartSpec>): Result<Bytes, EncodingError> {
    FormFrom(boundary, parts, true, true)
  }

  function Streamed(boundary: Bytes, parts: seq<PartSpec>): Result<Bytes, EncodingError> {
    FormFrom(boundary, parts, true, false)
  }

  // ---------------------------------------------------------------------------------------------
  // Streams as objects

  class InputStream {
    var events: seq<ReadEvent>
    var streamError: Option<int>

    constructor (events: seq<ReadEvent>)
      ensures this.events == events && streamError == None
    {
      this.events := events;
      streamError := None;
    }

    predicate HasBytesAvailable()
      reads this
    {
      events != []
    }

    method Read(maxLength: nat) returns (data: Bytes)
      requires HasBytesAvailable() && Readable(events) && maxLength == STREAM_BUFFER_SIZE
      modifies this
      ensures events == old(events)[1..] && |data| <= maxLength
      ensures old(events)[0].Chunk? ==> data == old(events)[0].data && streamError == old(streamError)
      ensures old(events)[0].EndOfStream? ==> data == [] && streamError == old(streamError)
      ensures old(events)[0].ReadFailure? ==> data == [] && streamError == Some(old(events)[0].code)
    {
      var event := events[0];
      events := events[1..];
      data := [];
      match event
      case Chunk(bytes) => data := bytes;
      case EndOfStream =>
      case ReadFailure(code) => streamError := Some(code);
    }
  }

  class OutputStream {
    const plan: nat -> WriteEvent
    var rounds: nat
    var bytes: Bytes
    var streamError: Option<int>
    ghost var starved: bool      // a write loop has been told that there is no space

    ghost predicate Valid()
      reads this
    {
      starved <==> Denied(plan, rounds)
    }

    constructor (plan: nat -> WriteEvent)
      ensures Valid()
      ensures this.plan == plan && rounds == 0 && bytes == [] && streamError == None && !starved
    {
      this.plan := plan;
      rounds := 0;
      bytes := [];
      streamError := None;
      starved := false;
    }

    method HasSpaceAvailable() returns (space: bool)
      requires Valid()
      modifies this`rounds, this`starved
      ensures Valid()
      ensures space == !plan(old(rounds)).NoSpace?
      ensures rounds == if space then old(rounds) else old(rounds) + 1
      ensures starved == (old(starved) || !space)
    {
      space := !plan(rounds).NoSpace?;
      if !space {
        rounds := rounds + 1;
        starved := true;
      }
    }

    method Write(buffer: Bytes, maxLength: nat) returns (bytesWritten: nat)
      requires Valid() && 0 < maxLength <= |buffer| && !plan(rounds).NoSpace?
      modifies this`rounds, this`bytes, this`streamError
      ensures Valid()
      ensures bytesWritten <= maxLength && bytes == old(bytes) + buffer[..bytesWritten]
      ensures rounds == old(rounds) + 1
      ensures plan(old(rounds)).Accept? ==> bytesWritten > 0 && streamError == old(streamError)
      ensures plan(old(rounds)).WriteFailure? ==> streamError == Some(plan(old(rounds)).code)
    {
      match plan(rounds)
      case Accept(extra) =>
        bytesWritten := if extra < maxLength then extra + 1 else maxLength;
        bytes := bytes + buffer[..bytesWritten];
        rounds := rounds + 1;
      case WriteFailure(code) =>
        bytesWritten := 0;
        streamError := Some(code);
        rounds := rounds + 1;
    }
  }

  // ---------------------------------------------------------------------------------------------
  // Reading a body

  class BodyPart {
    const headers: seq<Header>
    const bodyStream: InputStream
    const bodyContentLength: nat
    var hasInitialBoundary: bool
    var hasFinalBoundary: bool

    constructor (headers: seq<Header>, bodyStream: InputStream, bodyContentLength: nat)
      ensures this.headers == headers && this.bodyStream == bodyStream
      ensures this.bodyContentLength == bodyContentLength
      ensures !hasInitialBoundary && !hasFinalBoundary
    {
      this.headers := headers;
      this.bodyStream := bodyStream;
      this.bodyContentLength := bodyContentLength;
      hasInitialBoundary := false;
      hasFinalBoundary := false;
    }

    function Spec(): PartSpec
      reads this, bodyStream
    {
      PartSpec(headers, bodyStream.events, bodyContentLength)
    }

    /** `encodeBodyStream`. */
    method EncodeBodyStream() returns (r: Result<Bytes, EncodingError>)
      requires Readable(bodyStream.events) && bodyStream.streamError == None
      modifies bodyStream
      ensures r == CheckedBody(old(Spec()))
    {
      var encoded: Bytes := [];
      ghost var all := bodyStream.events;
      BehindNothing(encoded, StreamContent(all));
      while bodyStream.HasBytesAvailable()
        invariant Readable(bodyStream.events) && bodyStream.streamError == None
        invariant StreamContent(all) == Behind(encoded, StreamContent(bodyStream.events))
        decreases |bodyStream.events|
      {
        ghost var before := bodyStream.events;
        var buffer := bodyStream.Read(STREAM_BUFFER_SIZE);
        if bodyStream.streamError.Some? {
          return Failure(InputStreamReadFailed(bodyStream.streamError.value));
        }
        if |buffer| > 0 {
          BehindTwice(encoded, buffer, StreamContent(bodyStream.events));
          encoded := encoded + buffer;
        } else {
          assert before[0] == EndOfStream;
          break;
        }
      }
      BehindNothing(encoded, StreamContent(all));
      if |encoded| != bodyContentLength {
        return Failure(UnexpectedInputStreamLength(bodyContentLength, |encoded|));
      }
      return Success(encoded);
    }
  }

  // ---------------------------------------------------------------------------------------------
  // Writing

  /** The buffered `write` loop.  It stops without an error when the stream has no space. */
  method WriteBuffer(data: Bytes, out: OutputStream) returns (r: Result<(), EncodingError>)
    requires out.Valid() && out.streamError == None
    modifies out
    ensures out.Valid() && old(out.rounds) <= out.rounds && (data != [] ==> old(out.rounds) < out.rounds)
    ensures r.Success? ==> out.streamError == None
    ensures r.Success? ==> Wrote(old(out.bytes), out.bytes, data, old(out.starved), out.starved)
    ensures r.Failure? ==> r.error.OutputStreamWriteFailed?
    ensures old(out.bytes) <= out.bytes <= old(out.bytes) + data
    ensures NeverFails(out.plan) ==> r.Success?
    ensures AlwaysRoom(out.plan) ==> out.starved == old(out.starved)
  {
    hide Thinned;
    var buffer, bytesToWrite := data, |data|;
    while bytesToWrite > 0
      invariant bytesToWrite == 0 || |buffer| == bytesToWrite
      invariant bytesToWrite <= |data|
      invariant bytesToWrite > 0 ==> buffer == data[|data|-bytesToWrite..]
      invariant out.bytes == old(out.bytes) + data[..|data|-bytesToWrite]
      invariant out.streamError == None && out.starved == old(out.starved)
      invariant out.Valid() && old(out.rounds) <= out.rounds
      invariant bytesToWrite < |data| ==> old(out.rounds) < out.rounds
      decreases bytesToWrite
    {
      var space := out.HasSpaceAvailable();
      if !space {
        break;
      }
      ghost var done := |data| - bytesToWrite;
      var bytesWritten := out.Write(buffer, bytesToWrite);
      assert data[..done] + buffer[..bytesWritten] == data[..done+bytesWritten];
      if out.streamError.Some? {
        return Failure(OutputStreamWriteFailed(out.streamError.value));
      }
      bytesToWrite := bytesToWrite - bytesWritten;
      if bytesToWrite > 0 {
        buffer := buffer[bytesWritten..];
      }
    }
    ThinnedPrefix(data, |data| - bytesToWrite);
    assert out.bytes[|old(out.bytes)|..] == data[..|data|-bytesToWrite];
    return Success(());
  }

  /** `writeBodyStream`: unlike `EncodeBodyStream` it does not look at the declared length. */
  method WriteBodyStream(part: BodyPart, out: OutputStream) returns (r: Result<(), EncodingError>)
    requires Readable(part.bodyStream.events) && part.bodyStream.streamError == None
    requires out.Valid() && out.streamError == None
    modifies part.bodyStream, out
    ensures out.Valid() && old(out.rounds) <= out.rounds
    ensures r.Success? ==> out.streamError == None && StreamContent(old(part.bodyStream.events)).Success?
    ensures r.Success? ==>
      Wrote(old(out.bytes), out.bytes, StreamContent(old(part.bodyStream.events)).value, old(out.starved), out.starved)
    ensures NeverFails(out.plan) ==>
      match StreamContent(old(part.bodyStream.events))
      case Success(_) => r.Success?
      case Failure(e) => r == Failure(e)
    ensures AlwaysRoom(out.plan) ==> out.starved == old(out.starved)
  {
    hide Thinned, Wrote, AlwaysRoom, NeverFails, Denied;
    ghost var all := part.bodyStream.events;
    ghost var sofar: Bytes := [];
    BehindNothing(sofar, StreamContent(all));
    WroteNothing(out.bytes, out.starved);
    while part.bodyStream.HasBytesAvailable()
      invariant Readable(part.bodyStream.events) && part.bodyStream.streamError == None
      invariant out.Valid() && out.streamError == None && old(out.rounds) <= out.rounds
      invariant StreamContent(all) == Behind(sofar, StreamContent(part.bodyStream.events))
      invariant Wrote(old(out.bytes), out.bytes, sofar, old(out.starved), out.starved)
      invariant AlwaysRoom(out.plan) ==> out.starved == old(out.starved)
      decreases |part.bodyStream.events|
    {
      var buffer := part.bodyStream.Read(STREAM_BUFFER_SIZE);
      if part.bodyStream.streamError.Some? {
        return Failure(InputStreamReadFailed(part.bodyStream.streamError.value));
      }
      if |buffer| > 0 {
        BehindTwice(sofar, buffer, StreamContent(part.bodyStream.events));
        ghost var bytes, starved := out.bytes, out.starved;
        r := WriteBuffer(buffer, out);
        if r.Failure? {
          return r;
        }
        WroteThen(old(out.bytes), bytes, out.bytes, sofar, buffer, old(out.starved), starved, out.starved);
        sofar := sofar + buffer;
      } else {
        break;
      }
    }
    BehindNothing(sofar, StreamContent(all));
    return Success(());
  }
}
