/**
  `MultipartFormData` as an object, its two encoders, and how they compare: with the round trip of
  MultipartFormat.dfy, with each other, and with the choice between them in MultipartUpload.swift.
 */
module MultipartForm {
  import opened Wrappers
  import opened Octets
  import opened MultipartFormat
  import opened MultipartEncoder

  class MultipartFormData {
    const boundary: Bytes
    var bodyParts: seq<BodyPart>
    var bodyPartError: Option<EncodingError>

    constructor (boundary: Bytes)
      ensures this.boundary == boundary && bodyParts == [] && bodyPartError == None
      ensures Unencoded() && Specs() == []
    {
      this.boundary := boundary;
      bodyParts := [];
      bodyPartError := None;
    }

    ghost function Streams(): set<InputStream>
      reads this
    {
      set p | p in bodyParts :: p.bodyStream
    }

    /** What has been appended, in order. */
    ghost function Specs(): (specs: seq<PartSpec>)
      reads this, bodyParts, Streams()
      ensures |specs| == |bodyParts|
      ensures forall i :: 0 <= i < |bodyParts| ==> specs[i] == bodyParts[i].Spec()
    {
      seq(|bodyParts|, i requires 0 <= i < |bodyParts| reads this, bodyParts, Streams() => bodyParts[i].Spec())
    }

    /** No encoding has begun: no boundary flag is set and no stream has been opened. */
    ghost predicate Unencoded()
      reads this, bodyParts, Streams()
    {
      && (forall i, j :: 0 <= i < j < |bodyParts| ==>
            bodyParts[i] != bodyParts[j] && bodyParts[i].bodyStream != bodyParts[j].bodyStream)
      && (forall i :: 0 <= i < |bodyParts| ==>
            && !bodyParts[i].hasInitialBoundary && !bodyParts[i].hasFinalBoundary
            && Readable(bodyParts[i].bodyStream.events) && bodyParts[i].bodyStream.streamError == None)
    }

    /** Exactly the first part has an initial boundary and exactly the last one a final boundary. */
    ghost predicate Marked()
      reads this, bodyParts
    {
      forall i :: 0 <= i < |bodyParts| ==>
        bodyParts[i].hasInitialBoundary == (i == 0) && bodyParts[i].hasFinalBoundary == (i == |bodyParts| - 1)
    }

    /** Nothing has been read from the streams of the parts from position k on, which are all different. */
    ghost predicate Unread(specs: seq<PartSpec>, k: nat)
      reads this, bodyParts, Streams()
    {
      && |specs| == |bodyParts|
      && (forall i, j :: k <= i < j < |bodyParts| ==> bodyParts[i].bodyStream != bodyParts[j].bodyStream)
      && forall i :: k <= i < |bodyParts| ==>
           bodyParts[i].Spec() == specs[i] && Readable(specs[i].events) && bodyParts[i].bodyStream.streamError == None
    }

    /** `append(_:withLength:headers:)`. */
    method Append(stream: InputStream, length: nat, headers: seq<Header>)
      requires Unencoded() && stream !in Streams() && Readable(stream.events) && stream.streamError == None
      modifies this`bodyParts
      ensures Unencoded()
      ensures Specs() == old(Specs()) + [PartSpec(headers, stream.events, length)]
      ensures bodyPartError == old(bodyPartError)
      ensures |bodyParts| == |old(bodyParts)| + 1 && bodyParts[..|old(bodyParts)|] == old(bodyParts)
      ensures fresh(bodyParts[|old(bodyParts)|]) && bodyParts[|old(bodyParts)|].bodyStream == stream
    {
      var part := new BodyPart(headers, stream, length);
      ghost var before := Specs();
      bodyParts := bodyParts + [part];
      assert Specs()[..|before|] == before;
    }

    /** `setBodyPartError`: the first error is kept. */
    method SetBodyPartError(error: EncodingError)
      modifies this`bodyPartError
      ensures bodyPartError == if old(bodyPartError).Some? then old(bodyPartError) else Some(error)
    {
      if bodyPartError.None? {
        bodyPartError := Some(error);
      }
    }

    /**
      `append(_:withName:fileName:mimeType:)` for a file: its checks come to a stream with a length, or to an
      error, which is kept for the encoders if it is the first.
     */
    method AppendFile(file: Result<(InputStream, nat), EncodingError>, headers: seq<Header>)
      requires Unencoded()
      requires file.Success? ==>
        && file.value.0 !in Streams() && Readable(file.value.0.events) && file.value.0.streamError == None
      modifies this`bodyParts, this`bodyPartError
      ensures Unencoded()
      ensures file.Success? ==>
        && Specs() == old(Specs()) + [PartSpec(headers, file.value.0.events, file.value.1)]
        && bodyPartError == old(bodyPartError)
      ensures file.Failure? ==>
        && bodyParts == old(bodyParts)
        && bodyPartError == if old(bodyPartError).Some? then old(bodyPartError) else Some(file.error)
    {
      match file
      case Success((stream, length)) => Append(stream, length, headers);
      case Failure(error) => SetBodyPartError(error);
    }

    /** `contentLength`: the sum of the declared lengths. */
    method ContentLength() returns (length: nat)
      ensures length == DeclaredLength(Specs())
    {
      length := 0;
      ghost var specs := Specs();
      assert specs[0..] == specs;
      for i := 0 to |bodyParts|
        invariant length + DeclaredLength(specs[i..]) == DeclaredLength(specs)
      {
        assert specs[i..][1..] == specs[i+1..];
        length := length + bodyParts[i].bodyContentLength;
      }
      assert specs[|specs|..] == [];
    }

    /** Both encoders mark the first and the last part. */
    method MarkBoundaries()
      requires Unencoded()
      modifies bodyParts
      ensures Marked() && Unread(old(Specs()), 0)
    {
      if |bodyParts| > 0 {
        bodyParts[0].hasInitialBoundary := true;
        bodyParts[|bodyParts|-1].hasFinalBoundary := true;
      }
    }

    /** `encode(_ bodyPart:)`. */
    method EncodePart(part: BodyPart) returns (r: Result<Bytes, EncodingError>)
      requires Readable(part.bodyStream.events) && part.bodyStream.streamError == None
      modifies part.bodyStream
      ensures r == match CheckedBody(old(part.Spec()))
                   case Failure(e) => Failure(e)
                   case Success(body) =>
                     Success(Opening(boundary, part.headers, part.hasInitialBoundary) + body
                             + Closing(boundary, part.hasFinalBoundary))
    {
      var encoded := BoundaryData(if part.hasInitialBoundary then Initial else Encapsulated, boundary);
      encoded := encoded + EncodeHeaders(part.headers);
      var body := part.EncodeBodyStream();
      if body.Failure? {
        return Failure(body.error);
      }
      encoded := encoded + body.value;
      assert encoded == Opening(boundary, part.headers, part.hasInitialBoundary) + body.value;
      if part.hasFinalBoundary {
        encoded := encoded + BoundaryData(Final, boundary);
      } else {
        assert encoded + [] == encoded;
      }
      return Success(encoded);
    }

    /** One round of the loop in `encode()`. */
    method EncodePartAt(k: nat, ghost specs: seq<PartSpec>) returns (r: Result<Bytes, EncodingError>)
      requires k < |bodyParts| && Marked() && Unread(specs, k)
      modifies Streams()
      ensures Unread(specs, k + 1)
      ensures Body(specs[k], true).Failure? ==> r == Body(specs[k], true)
      ensures Body(specs[k], true).Success? ==> r == Success(EncodedPart(boundary, specs, k, Body(specs[k], true).value))
    {
      hide CheckedBody, Opening, Closing;
      assert forall i :: 0 <= i < |bodyParts| ==> bodyParts[i].bodyStream in Streams();
      r := EncodePart(bodyParts[k]);
    }

    /** `encode()`. */
    method Encode() returns (r: Result<Bytes, EncodingError>)
      requires Unencoded()
      modifies bodyParts, Streams()
      ensures r == if bodyPartError.Some? then Failure(bodyPartError.value) else InMemory(boundary, old(Specs()))
      ensures r.Success? && bodyParts != [] ==> Enclosed(r.value, boundary)
    {
      hide Enclosed, Body, EncodedPart, FormFrom, StillToDo, Readable, Specs, Streams, Unencoded, Marked, Unread;
      if bodyPartError.Some? {
        return Failure(bodyPartError.value);
      }
      ghost var specs := Specs();
      ghost var goal := InMemory(boundary, specs);
      EncodedFormIsEnclosed(boundary, specs, true);
      var encoded: Bytes := [];
      MarkBoundaries();
      StartAndEnd(goal, encoded, boundary, specs, true);
      for i := 0 to |bodyParts|
        invariant StillToDo(goal, encoded, boundary, specs, i, true)
        invariant Marked() && Unread(specs, i)
        modifies Streams()
      {
        PartDone(goal, encoded, boundary, specs, i, true);
        var encodedData := EncodePartAt(i, specs);
        if encodedData.Failure? {
          return Failure(encodedData.error);
        }
        encoded := encoded + encodedData.value;
      }
      StartAndEnd(goal, encoded, boundary, specs, true);
      return Success(encoded);
    }

    /** `write(_ bodyPart:to:)`. */
    method WritePart(part: BodyPart, out: OutputStream) returns (r: Result<(), EncodingError>)
      requires Readable(part.bodyStream.events) && part.bodyStream.streamError == None
      requires out.Valid() && out.streamError == None
      modifies part.bodyStream, out
      ensures out.Valid() && old(out.rounds) < out.rounds
      ensures r.Success? ==> out.streamError == None && StreamContent(old(part.bodyStream.events)).Success?
      ensures r.Success? ==>
        Wrote(old(out.bytes), out.bytes,
              Opening(boundary, part.headers, part.hasInitialBoundary)
              + StreamContent(old(part.bodyStream.events)).value
              + Closing(boundary, part.hasFinalBoundary), old(out.starved), out.starved)
      ensures NeverFails(out.plan) ==>
        match StreamContent(old(part.bodyStream.events))
        case Success(_) => r.Success?
        case Failure(e) => r == Failure(e)
      ensures AlwaysRoom(out.plan) ==> out.starved == old(out.starved)
    {
      hide StreamContent, BoundaryData, EncodeHeaders, AlwaysRoom, NeverFails, Denied, Readable, Wrote;
      ghost var b0, s0 := out.bytes, out.starved;
      ghost var content := StreamContent(part.bodyStream.events);
      var start := BoundaryData(if part.hasInitialBoundary then Initial else Encapsulated, boundary);
      BoundaryNotEmpty(if part.hasInitialBoundary then Initial else Encapsulated, boundary);
      r := WriteBuffer(start, out);
      if r.Failure? { return r; }
      ghost var b1, s1 := out.bytes, out.starved;
      var headerData := EncodeHeaders(part.headers);
      r := WriteBuffer(headerData, out);
      if r.Failure? { return r; }
      ghost var b2, s2 := out.bytes, out.starved;
      WroteThen(b0, b1, b2, start, headerData, s0, s1, s2);
      r := WriteBodyStream(part, out);
      if r.Failure? { return r; }
      ghost var b3, s3 := out.bytes, out.starved;
      WroteThen(b0, b2, b3, start + headerData, content.value, s0, s2, s3);
      if part.hasFinalBoundary {
        r := WriteBuffer(BoundaryData(Final, boundary), out);
        if r.Failure? { return r; }
      } else {
        WroteNothing(out.bytes, out.starved);
      }
      WroteThen(b0, b3, out.bytes, start + headerData + content.value, Closing(boundary, part.hasFinalBoundary),
                s0, s3, out.starved);
    }

    /** One round of the loop in `writeEncodedData(to:)`. */
    method WritePartAt(k: nat, ghost specs: seq<PartSpec>, out: OutputStream) returns (r: Result<(), EncodingError>)
      requires k < |bodyParts| && Marked() && Unread(specs, k) && out.Valid() && out.streamError == None
      modifies Streams(), out
      ensures Unread(specs, k + 1)
      ensures out.Valid() && old(out.rounds) < out.rounds
      ensures r.Success? ==> out.streamError == None && Body(specs[k], false).Success?
      ensures r.Success? ==>
        Wrote(old(out.bytes), out.bytes, EncodedPart(boundary, specs, k, Body(specs[k], false).value),
              old(out.starved), out.starved)
      ensures NeverFails(out.plan) ==>
        match Body(specs[k], false)
        case Success(_) => r.Success?
        case Failure(e) => r == Failure(e)
      ensures AlwaysRoom(out.plan) ==> out.starved == old(out.starved)
    {
      hide StreamContent, Opening, Closing, AlwaysRoom, NeverFails, Denied, Wrote;
      assert forall i :: 0 <= i < |bodyParts| ==> bodyParts[i].bodyStream in Streams();
      r := WritePart(bodyParts[k], out);
    }

    /**
      `writeEncodedData(to:)`, once the output stream is open.  If it reports success, the whole form has been
      written exactly if no write loop found the stream without space; otherwise some of its bytes are
      missing and the others stand in order.
     */
    method WriteEncodedData(out: OutputStream) returns (r: Result<(), EncodingError>)
      requires Unencoded()
      requires out.Valid() && out.streamError == None && !out.starved && out.bytes == []
      modifies bodyParts, Streams(), out
      ensures out.Valid() && old(out.rounds) <= out.rounds
      ensures bodyPartError.Some? ==> r == Failure(bodyPartError.value) && out.bytes == []
      ensures bodyPartError.None? && bodyParts != [] ==> old(out.rounds) < out.rounds
      ensures bodyPartError.None? && r.Success? ==>
        && Streamed(boundary, old(Specs())).Success?
        && Thinned(out.bytes, Streamed(boundary, old(Specs())).value)
        && (Streamed(boundary, old(Specs())) == Success(out.bytes) <==> !out.starved)
        && (bodyParts != [] && !out.starved ==> Enclosed(out.bytes, boundary))
      // if the stream never fails, only a body that cannot be read makes it fail
      ensures bodyPartError.None? && NeverFails(out.plan) ==>
        match Streamed(boundary, old(Specs()))
        case Success(_) => r.Success?
        case Failure(e) => r == Failure(e)
      ensures AlwaysRoom(out.plan) ==> !out.starved
    {
      hide Enclosed, Body, EncodedPart, FormFrom, StillToDo, Readable, AlwaysRoom, NeverFails, Denied, Thinned, Wrote,
           Specs, Streams, Unencoded, Marked, Unread;
      if bodyPartError.Some? {
        return Failure(bodyPartError.value);
      }
      ghost var specs := Specs();
      ghost var goal := Streamed(boundary, specs);
      EncodedFormIsEnclosed(boundary, specs, false);
      ghost var sofar: Bytes := [];
      MarkBoundaries();
      StartAndEnd(goal, sofar, boundary, specs, false);
      WroteNothing(out.bytes, out.starved);
      for i := 0 to |bodyParts|
        invariant StillToDo(goal, sofar, boundary, specs, i, false)
        invariant out.Valid() && out.streamError == None && old(out.rounds) <= out.rounds
        invariant i > 0 ==> old(out.rounds) < out.rounds
        invariant Wrote([], out.bytes, sofar, false, out.starved)
        invariant AlwaysRoom(out.plan) ==> !out.starved
        invariant Marked() && Unread(specs, i)
        modifies Streams(), out
      {
        PartDone(goal, sofar, boundary, specs, i, false);
        ghost var bytes, starved := out.bytes, out.starved;
        r := WritePartAt(i, specs, out);
        if r.Failure? {
          return r;
        }
        ghost var piece := EncodedPart(boundary, specs, i, Body(specs[i], false).value);
        WroteThen([], bytes, out.bytes, sofar, piece, false, starved, out.starved);
        sofar := sofar + piece;
      }
      StartAndEnd(goal, sofar, boundary, specs, false);
      WroteAll(out.bytes, sofar, out.starved);
      return Success(());
    }
  }

  lemma BoundaryNotEmpty(kind: BoundaryType, boundary: Bytes)
    ensures BoundaryData(kind, boundary) != []
  {
  }

  // ---------------------------------------------------------------------------------------------
  // Appending and encoding

  predicate AllReadable(specs: seq<PartSpec>) {
    forall i :: 0 <= i < |specs| ==> Readable(specs[i].events)
  }

  /** A new form with the given parts appended in order. */
  method FormWith(boundary: Bytes, specs: seq<PartSpec>) returns (form: MultipartFormData)
    requires AllReadable(specs)
    ensures fresh(form) && form.Unencoded() && form.boundary == boundary && form.bodyPartError == None
    ensures form.Specs() == specs
    ensures forall i :: 0 <= i < |form.bodyParts| ==> fresh(form.bodyParts[i]) && fresh(form.bodyParts[i].bodyStream)
  {
    hide Readable, MultipartFormData.Specs;
    form := new MultipartFormData(boundary);
    for i := 0 to |specs|
      invariant fresh(form) && form.Unencoded() && form.boundary == boundary && form.bodyPartError == None
      invariant form.Specs() == specs[..i]
      invariant forall j :: 0 <= j < |form.bodyParts| ==>
        fresh(form.bodyParts[j]) && fresh(form.bodyParts[j].bodyStream)
    {
      var stream := new InputStream(specs[i].events);
      form.Append(stream, specs[i].declared, specs[i].headers);
    }
  }

  /** Appends the parts and encodes the form in memory. */
  method EncodeParts(boundary: Bytes, specs: seq<PartSpec>) returns (r: Result<Bytes, EncodingError>)
    requires AllReadable(specs)
    ensures r == InMemory(boundary, specs)
  {
    hide FormFrom, MultipartFormData.Unencoded, MultipartFormData.Specs;
    var form := FormWith(boundary, specs);
    assert forall s :: s in form.Streams() ==> fresh(s);
    r := form.Encode();
  }

  /** Appends the parts and writes the form to a new stream that behaves as planned. */
  method WriteParts(boundary: Bytes, specs: seq<PartSpec>, plan: nat -> WriteEvent)
      returns (r: Result<(), EncodingError>, out: OutputStream)
    requires AllReadable(specs)
    ensures out.plan == plan && out.Valid() && (specs != [] ==> out.rounds > 0)
    ensures r.Success? ==>
      && Streamed(boundary, specs).Success? && Thinned(out.bytes, Streamed(boundary, specs).value)
      && (Streamed(boundary, specs) == Success(out.bytes) <==> !out.starved)
    ensures NeverFails(plan) ==>
      match Streamed(boundary, specs)
      case Success(_) => r.Success?
      case Failure(e) => r == Failure(e)
    ensures AlwaysRoom(plan) ==> !out.starved
  {
    hide FormFrom, Thinned, Denied, AlwaysRoom, NeverFails, MultipartFormData.Unencoded,
         MultipartFormData.Specs;
    out := new OutputStream(plan);
    var form := FormWith(boundary, specs);
    assert forall s :: s in form.Streams() ==> fresh(s);
    r := form.WriteEncodedData(out);
  }

  /** One part without headers and with one byte; the stream has no space when the first byte is to be written. */
  const ONE_BYTE: seq<PartSpec> := [PartSpec([], [Chunk([7])], 1)]

  function FullAtFirst(round: nat): WriteEvent { if round == 0 then NoSpace else Accept(0) }

  /** `writeEncodedData(to:)` reports success and has left bytes out. */
  method TruncatedWithoutError(boundary: Bytes) returns (r: Result<(), EncodingError>, out: OutputStream)
    ensures r.Success? && Streamed(boundary, ONE_BYTE).Success?
    ensures Thinned(out.bytes, Streamed(boundary, ONE_BYTE).value)
    ensures |out.bytes| < |Streamed(boundary, ONE_BYTE).value|
  {
    hide FormFrom, Thinned;
    OneByteForm(boundary);
    r, out := WriteParts(boundary, ONE_BYTE, FullAtFirst);
    assert out.plan(0).NoSpace? && out.starved;
    ThinnedLength(out.bytes, Streamed(boundary, ONE_BYTE).value);
  }

  lemma OneByteForm(boundary: Bytes)
    ensures AllReadable(ONE_BYTE) && Streamed(boundary, ONE_BYTE).Success?
  {
    var events := ONE_BYTE[0].events;
    assert events[1..] == [] && ONE_BYTE[1..] == [];
    assert StreamContent(events) == Success([7] + []);
    assert FormFrom(boundary, ONE_BYTE[1..], false, false) == Success([]);
  }

  /** The first i parts have been encoded as `done`, and the rest of the form goes behind them. */
  predicate StillToDo(form: Result<Bytes, EncodingError>, done: Bytes,
                      boundary: Bytes, specs: seq<PartSpec>, i: nat, checked: bool) {
    i <= |specs| && form == Behind(done, FormFrom(boundary, specs[i..], i == 0, checked))
  }

  function Body(spec: PartSpec, checked: bool): Result<Bytes, EncodingError> {
    if checked then CheckedBody(spec) else StreamContent(spec.events)
  }

  function EncodedPart(boundary: Bytes, specs: seq<PartSpec>, i: nat, body: Bytes): Bytes
    requires i < |specs|
  {
    Opening(boundary, specs[i].headers, i == 0) + body + Closing(boundary, i == |specs| - 1)
  }

  lemma StartAndEnd(form: Result<Bytes, EncodingError>, done: Bytes, boundary: Bytes, specs: seq<PartSpec>, checked: bool)
    ensures form == FormFrom(boundary, specs, true, checked) ==> StillToDo(form, [], boundary, specs, 0, checked)
    ensures StillToDo(form, done, boundary, specs, |specs|, checked) ==> form == Success(done)
  {
    BehindNothing(done, form);
    assert specs[0..] == specs;
  }

  lemma PartDone(form: Result<Bytes, EncodingError>, done: Bytes,
                 boundary: Bytes, specs: seq<PartSpec>, i: nat, checked: bool)
    requires i < |specs| && StillToDo(form, done, boundary, specs, i, checked)
    ensures Body(specs[i], checked).Failure? ==> form == Body(specs[i], checked)
    ensures Body(specs[i], checked).Success? ==>
      StillToDo(form, done + EncodedPart(boundary, specs, i, Body(specs[i], checked).value), boundary, specs, i + 1, checked)
  {
    FormUnfolds(boundary, specs, i, checked);
    hide CheckedBody, StreamContent, Opening, Closing, FormFrom;
    var body := Body(specs[i], checked);
    if body.Success? {
      BehindTwice(done, EncodedPart(boundary, specs, i, body.value),
                  FormFrom(boundary, specs[i+1..], false, checked));
    }
  }

  /** The form from position i on is part i followed by the rest. */
  lemma FormUnfolds(boundary: Bytes, specs: seq<PartSpec>, i: nat, checked: bool)
    requires i < |specs|
    ensures FormFrom(boundary, specs[i..], i == 0, checked) ==
        if Body(specs[i], checked).Failure? then Body(specs[i], checked)
        else Behind(EncodedPart(boundary, specs, i, Body(specs[i], checked).value),
                    FormFrom(boundary, specs[i+1..], false, checked))
  {
    hide CheckedBody, StreamContent, Opening, Closing, Behind;
    assert specs[i..][1..] == specs[i+1..];
  }

  // ---------------------------------------------------------------------------------------------
  // In memory and streamed

  predicate LengthOk(p: PartSpec) {
    StreamContent(p.events).Success? ==> |StreamContent(p.events).value| == p.declared
  }

  /** Every part up to and including the first unreadable one has the length that was declared. */
  predicate LengthsOk(parts: seq<PartSpec>) {
    parts == [] || (LengthOk(parts[0]) && (StreamContent(parts[0].events).Success? ==> LengthsOk(parts[1..])))
  }

  lemma {:induction false} SameForms(boundary: Bytes, parts: seq<PartSpec>, first: bool)
    ensures FormFrom(boundary, parts, first, true) == FormFrom(boundary, parts, first, false) <==> LengthsOk(parts)
    ensures FormFrom(boundary, parts, first, false).Failure? && !LengthsOk(parts) ==>
      FormFrom(boundary, parts, first, true).Failure?
  {
    if parts != [] {
      hide Opening, Closing, StreamContent;
      SameForms(boundary, parts[1..], false);
      ErrorsDiffer(boundary, parts, first);
    }
  }

  /** A wrong length is reported as such, and streaming never reports one. */
  lemma {:induction false} ErrorsDiffer(boundary: Bytes, parts: seq<PartSpec>, first: bool)
    ensures !LengthsOk(parts) ==>
      && FormFrom(boundary, parts, first, true).Failure?
      && FormFrom(boundary, parts, first, true).error.UnexpectedInputStreamLength?
    ensures FormFrom(boundary, parts, first, false).Failure? ==>
      FormFrom(boundary, parts, first, false).error.InputStreamReadFailed?
  {
    if parts != [] {
      ReadErrors(parts[0].events);
      hide Opening, Closing, StreamContent;
      ErrorsDiffer(boundary, parts[1..], false);
    }
  }

  lemma {:induction false} ReadErrors(events: seq<ReadEvent>)
    ensures StreamContent(events).Failure? ==> StreamContent(events).error.InputStreamReadFailed?
  {
    if events != [] && events[0].Chunk? {
      ReadErrors(events[1..]);
    }
  }

  function DeclaredLength(parts: seq<PartSpec>): nat {
    if parts == [] then 0 else parts[0].declared + DeclaredLength(parts[1..])
  }

  /** Every part counts with its declared length, wherever it stands. */
  lemma {:induction false} EveryPartCounts(parts: seq<PartSpec>, i: nat)
    requires i < |parts|
    ensures DeclaredLength(parts) == DeclaredLength(parts[..i]) + parts[i].declared + DeclaredLength(parts[i+1..])
  {
    if i > 0 {
      EveryPartCounts(parts[1..], i - 1);
      assert parts[..i][1..] == parts[1..][..i-1] && parts[1..][i..] == parts[i+1..];
    }
  }

  /** `MultipartUpload.build`: below the threshold in memory, otherwise through a file with room to write. */
  function Upload(boundary: Bytes, parts: seq<PartSpec>, threshold: nat): Result<Bytes, EncodingError> {
    if DeclaredLength(parts) < threshold then InMemory(boundary, parts) else Streamed(boundary, parts)
  }

  datatype Uploadable = InData(data: Bytes) | InFile

  /**
    `MultipartUpload.build`.  A form with a declared length below the threshold is encoded in memory and the file
    is not touched; any other form goes to the file and never into memory.
   */
  method Build(form: MultipartFormData, threshold: nat, file: OutputStream) returns (r: Result<Uploadable, EncodingError>)
    requires form.Unencoded()
    requires file.Valid() && file.streamError == None && !file.starved && file.bytes == []
    modifies form.bodyParts, form.Streams(), file
    ensures form.bodyPartError.Some? ==> r == Failure(form.bodyPartError.value) && file.bytes == []
    ensures form.bodyPartError.None? && DeclaredLength(old(form.Specs())) < threshold ==>
        && file.bytes == [] && file.rounds == old(file.rounds)
        && r == match InMemory(form.boundary, old(form.Specs()))
                case Success(data) => Success(InData(data))
                case Failure(e) => Failure(e)
    ensures form.bodyPartError.None? && DeclaredLength(old(form.Specs())) >= threshold && r.Success? ==>
      r.value == InFile && (Streamed(form.boundary, old(form.Specs())) == Success(file.bytes) <==> !file.starved)
    // with room to write, what is uploaded is `Upload`
    ensures form.bodyPartError.None? && NeverFails(file.plan) && AlwaysRoom(file.plan) ==>
      match Upload(form.boundary, old(form.Specs()), threshold)
      case Success(bytes) => r.Success? && bytes == if r.value.InData? then r.value.data else file.bytes
      case Failure(e) => r == Failure(e)
  {
    hide MultipartFormData.Unencoded, MultipartFormData.Specs, FormFrom, NeverFails, AlwaysRoom, Enclosed, Thinned;
    var contentLength := form.ContentLength();
    if contentLength < threshold {
      var data := form.Encode();
      return match data case Success(bytes) => Success(InData(bytes)) case Failure(e) => Failure(e);
    }
    var written := form.WriteEncodedData(file);
    return match written case Success(_) => Success(InFile) case Failure(e) => Failure(e);
  }

  /**
    The uploaded bytes, or the error, do not depend on the memory threshold exactly if every part up to
    the first unreadable one has the length that was declared for it.
   */
  lemma ThresholdDoesNotMatter(boundary: Bytes, parts: seq<PartSpec>)
    ensures (forall t, t' :: Upload(boundary, parts, t) == Upload(boundary, parts, t')) <==> LengthsOk(parts)
  {
    SameForms(boundary, parts, true);
    var low, high := DeclaredLength(parts), DeclaredLength(parts) + 1;
    assert Upload(boundary, parts, low) == Streamed(boundary, parts);
    assert Upload(boundary, parts, high) == InMemory(boundary, parts);
  }

  /** A wrong length is reported exactly if the declared lengths add up to less than the threshold. */
  lemma {:induction false} WrongLengthIsReportedBelowThreshold(boundary: Bytes, parts: seq<PartSpec>, threshold: nat)
    requires !LengthsOk(parts)
    ensures Upload(boundary, parts, threshold).Failure? && Upload(boundary, parts, threshold).error.UnexpectedInputStreamLength?
       <==> DeclaredLength(parts) < threshold
  {
    ErrorsDiffer(boundary, parts, true);
  }

  /** A stream that is longer than declared fails in memory and is uploaded in full when streamed. */
  lemma WrongLengthIsOnlyNoticedInMemory(boundary: Bytes)
    ensures var parts := [PartSpec([], [Chunk([1, 2])], 1)];
      && InMemory(boundary, parts) == Failure(UnexpectedInputStreamLength(1, 2))
      && Streamed(boundary, parts).Success?
  {
    var parts := [PartSpec([], [Chunk([1, 2])], 1)];
    assert parts[0].events[1..] == [] && parts[1..] == [];
    assert StreamContent(parts[0].events) == Success([1, 2] + []);
    assert FormFrom(boundary, parts[1..], false, false) == Success([]);
  }

  // ---------------------------------------------------------------------------------------------
  // Round trip through the objects' encodings

  /** The parts that the streams stand for, if all can be read. */
  function ReadParts(parts: seq<PartSpec>): seq<Part> {
    if parts == [] then []
    else
      [Part(parts[0].headers, match StreamContent(parts[0].events) case Success(b) => b case Failure(_) => [])]
      + ReadParts(parts[1..])
  }

  lemma {:induction false} FormIsEncoding(boundary: Bytes, parts: seq<PartSpec>, first: bool, checked: bool)
    requires FormFrom(boundary, parts, first, checked).Success?
    ensures |ReadParts(parts)| == |parts|
    ensures FormFrom(boundary, parts, first, checked).value == EncodeFrom(boundary, ReadParts(parts), first)
  {
    if parts != [] {
      hide Opening, Closing, StreamContent, EncodeFrom, CheckedBody;
      FormIsEncoding(boundary, parts[1..], false, checked);
      SameBody(parts[0]);
      var p, rest := ReadParts(parts)[0], ReadParts(parts[1..]);
      assert ReadParts(parts) == [p] + rest;
      EncodeUnfolds(boundary, p, rest, first);
      assert (rest == []) == (|parts| == 1);
    } else {
      assert EncodeFrom(boundary, ReadParts(parts), first) == [];
    }
  }

  /** Whatever either encoder produces starts and ends as a form does. */
  lemma EncodedFormIsEnclosed(boundary: Bytes, parts: seq<PartSpec>, checked: bool)
    ensures parts != [] && FormFrom(boundary, parts, true, checked).Success? ==>
      Enclosed(FormFrom(boundary, parts, true, checked).value, boundary)
  {
    hide FormFrom, EncodeFrom;
    if parts != [] && FormFrom(boundary, parts, true, checked).Success? {
      FormIsEncoding(boundary, parts, true, checked);
      FormIsEnclosed(boundary, ReadParts(parts));
    }
  }

  lemma SameBody(p: PartSpec)
    ensures CheckedBody(p).Success? ==> CheckedBody(p) == StreamContent(p.events)
  {
  }

  lemma EncodeUnfolds(boundary: Bytes, p: Part, rest: seq<Part>, first: bool)
    ensures EncodeFrom(boundary, [p] + rest, first)
         == Opening(boundary, p.headers, first) + p.body + Closing(boundary, rest == []) + EncodeFrom(boundary, rest, false)
  {
    hide BoundaryData, EncodeHeaders;
    assert ([p] + rest)[1..] == rest;
    var start := BoundaryData(if first then Initial else Encapsulated, boundary);
    var more := EncodeFrom(boundary, rest, false);
    GroupPart(start, p, Closing(boundary, rest == []), more);
    if rest == [] {
      assert Closing(boundary, true) + more == Closing(boundary, true);
    } else {
      assert Closing(boundary, false) + more == more;
    }
  }

  lemma GroupPart(start: Bytes, p: Part, closing: Bytes, more: Bytes)
    ensures (start + EncodeHeaders(p.headers)) + p.body + closing + more == start + Content(p) + (closing + more)
  {
  }

  /** Whatever either encoder produces decodes to the headers and the streams' bytes, exactly if every part may be delimited. */
  lemma EncodedFormsDecode(boundary: Bytes, parts: seq<PartSpec>, checked: bool)
    requires parts != []
    requires FormFrom(boundary, parts, true, checked).Success?
    ensures |ReadParts(parts)| == |parts|
    ensures DecodeForm(FormFrom(boundary, parts, true, checked).value, boundary) == Some(ReadParts(parts))
       <==> forall i :: 0 <= i < |parts| ==> PartOk(ReadParts(parts)[i], boundary)
  {
    FormIsEncoding(boundary, parts, true, checked);
    RoundTrip(boundary, ReadParts(parts));
  }
}
