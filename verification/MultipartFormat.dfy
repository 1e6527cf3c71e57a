/**
  The bytes of a multipart/form-data body: what the encoder of MultipartFormData.swift produces, and an
  independent decoder for section 5.1.1 of RFC 2046.  `RoundTrip` says exactly when decoding gives back
  the parts.
 */
module MultipartFormat {
  import opened Wrappers
  import opened Octets

  const CR: byte := 13
  const LF: byte := 10
  const CRLF: Bytes := [CR, LF]
  const DASHES: Bytes := [45, 45]
  const COLON: byte := 58
  const SEPARATOR: Bytes := [58, 32]   // the colon and space between a header's name and value

  /** A header's name and value, already in UTF-8. */
  datatype Header = Header(name: Bytes, value: Bytes)

  datatype Part = Part(headers: seq<Header>, body: Bytes)

  // ---------------------------------------------------------------------------------------------
  // Encoding

  datatype BoundaryType = Initial | Encapsulated | Final

  function DashBoundary(boundary: Bytes): Bytes { DASHES + boundary }

  function BoundaryData(kind: BoundaryType, boundary: Bytes): Bytes {
    match kind
    case Initial => DashBoundary(boundary) + CRLF
    case Encapsulated => CRLF + DashBoundary(boundary) + CRLF
    case Final => CRLF + DashBoundary(boundary) + DASHES + CRLF
  }

  function HeaderLine(h: Header): Bytes { h.name + SEPARATOR + h.value }

  function HeaderLines(headers: seq<Header>): Bytes {
    if headers == [] then [] else HeaderLine(headers[0]) + CRLF + HeaderLines(headers[1..])
  }

  function EncodeHeaders(headers: seq<Header>): Bytes { HeaderLines(headers) + CRLF }

  /** The header block and the body of a part. */
  function Content(p: Part): Bytes { EncodeHeaders(p.headers) + p.body }

  /** The encoding of the parts from some position on; `first` tells whether that is the first part. */
  function EncodeFrom(boundary: Bytes, parts: seq<Part>, first: bool): Bytes {
    if parts == [] then []
    else
      BoundaryData(if first then Initial else Encapsulated, boundary)
      + Content(parts[0])
      + (if |parts| == 1 then BoundaryData(Final, boundary) else EncodeFrom(boundary, parts[1..], false))
  }

  function EncodeForm(boundary: Bytes, parts: seq<Part>): Bytes { EncodeFrom(boundary, parts, true) }

  // ---------------------------------------------------------------------------------------------
  // Decoding

  predicate StartsWith(s: Bytes, prefix: Bytes) {
    |prefix| <= |s| && s[..|prefix|] == prefix
  }

  predicate OccursAt(s: Bytes, i: nat, what: Bytes) {
    i <= |s| && StartsWith(s[i..], what)
  }

  /** The first position, not before `from`, at which `what` occurs. */
  function Find(s: Bytes, what: Bytes, from: nat): (r: Option<nat>)
    requires from <= |s|
    ensures r.Some? ==> from <= r.value <= |s| && OccursAt(s, r.value, what)
    ensures r.Some? ==> forall i :: from <= i < r.value ==> !OccursAt(s, i, what)
    ensures r.None? ==> forall i :: from <= i <= |s| ==> !OccursAt(s, i, what)
    decreases |s| - from
  {
    if OccursAt(s, from, what) then Some(from)
    else if from == |s| then None
    else Find(s, what, from + 1)
  }

  /** A line starts at the beginning and after every CRLF. */
  predicate LineStart(s: Bytes, i: nat) {
    i == 0 || (2 <= i <= |s| && s[i-2..i] == CRLF)
  }

  /** A line that starts with the dash-boundary is a delimiter, whatever follows on it. */
  predicate DelimiterAt(s: Bytes, i: nat, boundary: Bytes) {
    LineStart(s, i) && OccursAt(s, i, DashBoundary(boundary))
  }

  function FindDelimiter(s: Bytes, boundary: Bytes, from: nat): (r: Option<nat>)
    requires from <= |s|
    ensures r.Some? ==> from <= r.value <= |s| && DelimiterAt(s, r.value, boundary)
    ensures r.Some? ==> forall i :: from <= i < r.value ==> !DelimiterAt(s, i, boundary)
    ensures r.None? ==> forall i :: from <= i <= |s| ==> !DelimiterAt(s, i, boundary)
    decreases |s| - from
  {
    if DelimiterAt(s, from, boundary) then Some(from)
    else if from == |s| then None
    else FindDelimiter(s, boundary, from + 1)
  }

  /** The name of a header ends at the first colon, and its value starts behind the space that follows. */
  function DecodeHeader(line: Bytes): Option<Header> {
    match Find(line, [COLON], 0)
    case None => None
    case Some(i) => if OccursAt(line, i, SEPARATOR) then Some(Header(line[..i], line[i+2..])) else None
  }

  /** Header lines up to the empty line; the rest is the body. */
  function DecodeContent(s: Bytes): Option<Part>
    decreases |s|
  {
    match Find(s, CRLF, 0)
    case None => None
    case Some(i) =>
      if i == 0 then Some(Part([], s[2..]))
      else
        var header := DecodeHeader(s[..i]);
        var rest := DecodeContent(s[i+2..]);
        if header.None? || rest.None? then None
        else Some(Part([header.value] + rest.value.headers, rest.value.body))
  }

  function Prepend(part: Option<Part>, rest: Option<seq<Part>>): Option<seq<Part>> {
    if part.None? || rest.None? then None else Some([part.value] + rest.value)
  }

  /** The parts that follow, when the dash-boundary of a delimiter line ends at `at`. */
  function DecodeAfter(s: Bytes, boundary: Bytes, at: nat): Option<seq<Part>>
    requires at <= |s|
    decreases |s| - at
  {
    if OccursAt(s, at, DASHES) then Some([])
    else
      match Find(s, CRLF, at)
      case None => None
      case Some(eol) =>
        match FindDelimiter(s, boundary, eol + 2)
        case None => None
        case Some(next) =>
          if next < eol + 4 then None
          else
            Prepend(DecodeContent(s[eol+2..next-2]), DecodeAfter(s, boundary, next + |DashBoundary(boundary)|))
  }

  function DecodeForm(s: Bytes, boundary: Bytes): Option<seq<Part>> {
    match FindDelimiter(s, boundary, 0)
    case None => None
    case Some(i) => DecodeAfter(s, boundary, i + |DashBoundary(boundary)|)
  }

  // ---------------------------------------------------------------------------------------------
  // Header blocks

  /** `what` occurs nowhere in s. */
  predicate Absent(s: Bytes, what: Bytes) {
    forall i :: 0 <= i <= |s| ==> !OccursAt(s, i, what)
  }

  /** The header can be told from its line: no colon in the name, no CRLF anywhere. */
  predicate HeaderOk(h: Header) {
    COLON !in h.name && Absent(h.name, CRLF) && Absent(h.value, CRLF)
  }

  predicate HeadersOk(headers: seq<Header>) {
    forall i :: 0 <= i < |headers| ==> HeaderOk(headers[i])
  }

  lemma OccursIn(s: Bytes, i: nat, a: byte, b: byte)
    ensures OccursAt(s, i, [a, b]) <==> i + 2 <= |s| && s[i] == a && s[i+1] == b
  {
    if i + 2 <= |s| {
      assert s[i..][..2] == [s[i], s[i+1]];
    }
  }

  lemma OccursOnce(s: Bytes, i: nat, a: byte)
    ensures OccursAt(s, i, [a]) <==> i < |s| && s[i] == a
  {
    if i < |s| {
      assert s[i..][..1] == [s[i]];
    }
  }

  /** The first colon of a header line is the one the encoder wrote exactly if the name has none. */
  lemma NameEnds(h: Header)
    ensures Find(HeaderLine(h), [COLON], 0).Some?
    ensures Find(HeaderLine(h), [COLON], 0).value <= |h.name|
    ensures Find(HeaderLine(h), [COLON], 0).value == |h.name| <==> COLON !in h.name
  {
    var line := HeaderLine(h);
    OccursOnce(line, |h.name|, COLON);
    var k := Find(line, [COLON], 0).value;
    OccursOnce(line, k, COLON);
    if k == |h.name| {
      forall i | 0 <= i < |h.name| ensures h.name[i] != COLON {
        OccursOnce(line, i, COLON);
      }
    }
  }

  /** The first CRLF after a header line ends it exactly if name and value have none. */
  lemma LineEnds(h: Header, tail: Bytes)
    ensures Find(HeaderLine(h) + CRLF + tail, CRLF, 0).Some?
    ensures Find(HeaderLine(h) + CRLF + tail, CRLF, 0).value <= |HeaderLine(h)|
    ensures Find(HeaderLine(h) + CRLF + tail, CRLF, 0).value == |HeaderLine(h)|
       <==> Absent(h.name, CRLF) && Absent(h.value, CRLF)
  {
    var line := HeaderLine(h);
    var s := line + CRLF + tail;
    OccursIn(s, |line|, 13, 10);
    var k := Find(s, CRLF, 0).value;
    OccursIn(s, k, 13, 10);
    if k < |line| {
      if k < |h.name| { OccursIn(h.name, k, 13, 10); } else { OccursIn(h.value, k - |h.name| - 2, 13, 10); }
    } else {
      forall i | 0 <= i <= |h.name| ensures !OccursAt(h.name, i, CRLF) {
        OccursIn(h.name, i, 13, 10);
        OccursIn(s, i, 13, 10);
      }
      forall i | 0 <= i <= |h.value| ensures !OccursAt(h.value, i, CRLF) {
        OccursIn(h.value, i, 13, 10);
        OccursIn(s, |h.name| + 2 + i, 13, 10);
      }
    }
  }

  /** Decoding a header line loses nothing. */
  lemma HeaderIsLossless(line: Bytes)
    ensures DecodeHeader(line).Some? ==> HeaderLine(DecodeHeader(line).value) == line
  {
    var k := Find(line, [COLON], 0);
    if DecodeHeader(line).Some? {
      assert line == line[..k.value] + line[k.value..][..2] + line[k.value+2..];
    }
  }

  /** Decoding a header block and a body loses nothing. */
  lemma {:induction false} ContentIsLossless(s: Bytes)
    ensures DecodeContent(s).Some? ==> Content(DecodeContent(s).value) == s
    decreases |s|
  {
    var k := Find(s, CRLF, 0);
    if k.Some? {
      assert s == s[..k.value] + s[k.value..][..2] + s[k.value+2..];
      if k.value > 0 {
        HeaderIsLossless(s[..k.value]);
        ContentIsLossless(s[k.value+2..]);
        if DecodeContent(s).Some? {
          var header, rest := DecodeHeader(s[..k.value]).value, DecodeContent(s[k.value+2..]).value;
          ContentCons(header, rest);
        }
      }
    }
  }

  lemma ContentCons(h: Header, rest: Part)
    ensures Content(Part([h] + rest.headers, rest.body)) == HeaderLine(h) + CRLF + Content(rest)
  {
    assert ([h] + rest.headers)[1..] == rest.headers;
  }

  /** One header line is read back exactly if the header can be told from it. */
  lemma FirstHeader(h: Header, tail: Bytes)
    ensures var s := HeaderLine(h) + CRLF + tail;
      && Find(s, CRLF, 0).Some?
      && var k := Find(s, CRLF, 0).value;
      && (k == |HeaderLine(h)| <==> Absent(h.name, CRLF) && Absent(h.value, CRLF))
      && (k > 0 ==> (DecodeHeader(s[..k]) == Some(h) <==> HeaderOk(h)))
      && (k == |HeaderLine(h)| ==> k > 0 && s[k+2..] == tail)
  {
    var line := HeaderLine(h);
    var s := line + CRLF + tail;
    LineEnds(h, tail);
    var k := Find(s, CRLF, 0).value;
    assert s[..k] == line[..k];
    if k == |line| {
      assert s[..k] == line && s[k+2..] == tail;
      NameEnds(h);
      HeaderFromLine(h);
    } else {
      HeaderIsLossless(line[..k]);
    }
  }

  lemma HeaderFromLine(h: Header)
    ensures DecodeHeader(HeaderLine(h)) == Some(h) <==> COLON !in h.name
  {
    NameEnds(h);
    var line := HeaderLine(h);
    OccursIn(line, |h.name|, 58, 32);
    assert line[..|h.name|] == h.name && line[|h.name|+2..] == h.value;
  }

  /** A block with at least one header is decoded line by line. */
  lemma DecodeFirst(s: Bytes, k: nat)
    requires Find(s, CRLF, 0) == Some(k) && k > 0
    ensures k + 2 <= |s|
    ensures DecodeContent(s) ==
      var header, rest := DecodeHeader(s[..k]), DecodeContent(s[k+2..]);
      if header.None? || rest.None? then None else Some(Part([header.value] + rest.value.headers, rest.value.body))
  {
    hide Find, DecodeHeader;
    OccursIn(s, k, 13, 10);
  }

  lemma HeadersOkCons(h: Header, rest: seq<Header>)
    ensures HeadersOk([h] + rest) <==> HeaderOk(h) && HeadersOk(rest)
  {
    hide HeaderOk;
    assert forall i :: 0 <= i < |rest| ==> ([h] + rest)[i+1] == rest[i];
    assert ([h] + rest)[0] == h;
  }

  /** The header block and the body come back exactly if every header can be told from its line. */
  lemma {:induction false} ContentRoundTrip(p: Part)
    ensures DecodeContent(Content(p)) == Some(p) <==> HeadersOk(p.headers)
    decreases |p.headers|
  {
    if p.headers == [] {
      OccursIn(Content(p), 0, 13, 10);
    } else {
      HeadersRoundTrip(p);
    }
  }

  lemma {:induction false} HeadersRoundTrip(p: Part)
    requires p.headers != []
    ensures DecodeContent(Content(p)) == Some(p) <==> HeadersOk(p.headers)
    decreases |p.headers|, 0
  {
    hide Find, DecodeHeader, DecodeContent, HeaderLine, Content, HeaderOk, HeadersOk;
    var h, rest := p.headers[0], Part(p.headers[1..], p.body);
    assert p.headers == [h] + rest.headers;
    ContentCons(h, rest);
    FirstHeader(h, Content(rest));
    ContentRoundTrip(rest);
    HeadersOkCons(h, rest.headers);
    HeaderOkParts(h);
    var s := HeaderLine(h) + CRLF + Content(rest);
    var k := Find(s, CRLF, 0).value;
    if k > 0 {
      DecodeFirst(s, k);
    } else {
      FirstLineEmpty(s);
    }
  }

  lemma FirstLineEmpty(s: Bytes)
    requires Find(s, CRLF, 0) == Some(0)
    ensures DecodeContent(s).Some? ==> DecodeContent(s).value.headers == []
  {
    hide Find;
  }

  lemma HeaderOkParts(h: Header)
    ensures HeaderOk(h) ==> Absent(h.name, CRLF) && Absent(h.value, CRLF)
  {
  }

  // ---------------------------------------------------------------------------------------------
  // The whole form

  /** What the encoder writes from a part's first byte to the end of the delimiter behind it. */
  function Fenced(content: Bytes, boundary: Bytes): Bytes { content + CRLF + DashBoundary(boundary) }

  /** The delimiter behind a part is the first one from the part's first byte on. */
  predicate NoDelimiterLine(content: Bytes, boundary: Bytes) {
    forall i :: 0 <= i < |content| + 2 ==> !DelimiterAt(Fenced(content, boundary), i, boundary)
  }

  predicate PartOk(p: Part, boundary: Bytes) {
    HeadersOk(p.headers) && NoDelimiterLine(Content(p), boundary)
  }

  /** What follows the first dash-boundary of the encoded form. */
  function Tail(boundary: Bytes, parts: seq<Part>): Bytes
    requires parts != []
  {
    CRLF + Content(parts[0]) + CRLF + DashBoundary(boundary)
    + if |parts| == 1 then DASHES + CRLF else Tail(boundary, parts[1..])
  }

  lemma {:induction false} EncodeIsTail(boundary: Bytes, parts: seq<Part>, first: bool)
    requires parts != []
    ensures EncodeFrom(boundary, parts, first)
         == (if first then [] else CRLF) + DashBoundary(boundary) + Tail(boundary, parts)
    decreases |parts|
  {
    var content, delimiter := Content(parts[0]), DashBoundary(boundary);
    if |parts| == 1 {
      Regroup(if first then [] else CRLF, delimiter, content, DASHES + CRLF);
      assert BoundaryData(Final, boundary) == CRLF + delimiter + (DASHES + CRLF);
    } else {
      EncodeIsTail(boundary, parts[1..], false);
      Regroup(if first then [] else CRLF, delimiter, content, Tail(boundary, parts[1..]));
    }
    assert BoundaryData(if first then Initial else Encapsulated, boundary) == (if first then [] else CRLF) + delimiter + CRLF;
  }

  lemma Regroup(start: Bytes, delimiter: Bytes, content: Bytes, more: Bytes)
    ensures (start + delimiter + CRLF) + content + (CRLF + delimiter + more)
         == start + delimiter + (CRLF + content + CRLF + delimiter + more)
  {
  }

  /** The encoder writes `content` at `from`, after a CRLF and before a delimiter. */
  predicate Delimited(s: Bytes, from: nat, content: Bytes, boundary: Bytes) {
    && 2 <= from && from + |Fenced(content, boundary)| <= |s|
    && s[from-2] == CR && s[from-1] == LF
    && forall k :: 0 <= k < |Fenced(content, boundary)| ==> s[from+k] == Fenced(content, boundary)[k]
  }

  lemma OccursByElements(s: Bytes, i: nat, what: Bytes)
    ensures OccursAt(s, i, what) <==> i + |what| <= |s| && forall k :: 0 <= k < |what| ==> s[i+k] == what[k]
  {
    if i + |what| <= |s| {
      assert forall k :: 0 <= k < |what| ==> s[i..][..|what|][k] == s[i+k];
    }
  }

  lemma LineStartByElements(s: Bytes, i: nat)
    ensures LineStart(s, i) <==> i == 0 || (2 <= i <= |s| && s[i-2] == CR && s[i-1] == LF)
  {
    if 2 <= i <= |s| { assert s[i-2..i] == [s[i-2], s[i-1]]; }
  }

  lemma SameLineStarts(s: Bytes, from: nat, content: Bytes, boundary: Bytes, i: nat)
    requires Delimited(s, from, content, boundary) && i <= |content| + 2
    ensures LineStart(s, from + i) <==> LineStart(Fenced(content, boundary), i)
  {
    var fenced := Fenced(content, boundary);
    LineStartByElements(s, from + i);
    LineStartByElements(fenced, i);
    if i >= 2 {
      assert s[from+(i-2)] == fenced[i-2] && s[from+(i-1)] == fenced[i-1];
    }
  }

  /** From the part's first byte to the delimiter, the form has the delimiters that the part and its fence have. */
  lemma SameDelimiters(s: Bytes, from: nat, content: Bytes, boundary: Bytes, i: nat)
    requires Delimited(s, from, content, boundary) && i <= |content| + 2
    ensures DelimiterAt(s, from + i, boundary) <==> DelimiterAt(Fenced(content, boundary), i, boundary)
  {
    var fenced, delimiter := Fenced(content, boundary), DashBoundary(boundary);
    SameLineStarts(s, from, content, boundary, i);
    OccursByElements(s, from + i, delimiter);
    OccursByElements(fenced, i, delimiter);
    forall k | 0 <= k < |delimiter| ensures s[from+i+k] == delimiter[k] <==> fenced[i+k] == delimiter[k] {
      assert s[from+(i+k)] == fenced[i+k];
    }
    hide LineStart, OccursAt, Fenced, DashBoundary;
  }

  /** The decoder's next delimiter is the encoder's exactly if there is none before it. */
  lemma NextDelimiter(s: Bytes, from: nat, content: Bytes, boundary: Bytes)
    requires Delimited(s, from, content, boundary)
    ensures FindDelimiter(s, boundary, from).Some?
    ensures FindDelimiter(s, boundary, from).value <= from + |content| + 2
    ensures FindDelimiter(s, boundary, from).value == from + |content| + 2 <==> NoDelimiterLine(content, boundary)
  {
    var end := |content| + 2;
    FenceIsDelimiter(content, boundary);
    SameDelimiters(s, from, content, boundary, end);
    hide DelimiterAt, Delimited, Fenced;
    var found := FindDelimiter(s, boundary, from).value;
    if found < from + end {
      SameDelimiters(s, from, content, boundary, found - from);
    } else {
      forall i | 0 <= i < end ensures !DelimiterAt(Fenced(content, boundary), i, boundary) {
        SameDelimiters(s, from, content, boundary, i);
      }
    }
  }

  lemma FenceIsDelimiter(content: Bytes, boundary: Bytes)
    ensures DelimiterAt(Fenced(content, boundary), |content| + 2, boundary)
  {
    var fenced := Fenced(content, boundary);
    LineStartByElements(fenced, |content| + 2);
    assert fenced[|content|+2..] == DashBoundary(boundary);
  }

  /** Without a carriage return in the boundary, the condition speaks of the part's own lines. */
  lemma NoLineStartsWithBoundary(content: Bytes, boundary: Bytes)
    requires CR !in boundary
    ensures NoDelimiterLine(content, boundary) <==> forall i :: 0 <= i <= |content| ==> !DelimiterAt(content, i, boundary)
  {
    forall i | 0 <= i < |content| + 2
      ensures DelimiterAt(Fenced(content, boundary), i, boundary) <==> i <= |content| && DelimiterAt(content, i, boundary)
    {
      DelimiterInContent(content, boundary, i);
    }
  }

  lemma DelimiterInContent(content: Bytes, boundary: Bytes, i: nat)
    requires CR !in boundary && i < |content| + 2
    ensures DelimiterAt(Fenced(content, boundary), i, boundary) <==> i <= |content| && DelimiterAt(content, i, boundary)
  {
    var fenced, delimiter := Fenced(content, boundary), DashBoundary(boundary);
    LineStartByElements(fenced, i);
    LineStartByElements(content, i);
    OccursByElements(fenced, i, delimiter);
    OccursByElements(content, i, delimiter);
    if i + |delimiter| > |content| {
      // the fence has a carriage return or a line feed where the delimiter would have to go on
      var k := if i <= |content| then |content| - i else 0;
      assert fenced[i+k] == if i <= |content| then CR else LF;
      assert delimiter[k] != fenced[i+k];
    } else {
      assert forall k :: 0 <= k < |delimiter| ==> (fenced[i+k] == delimiter[k] <==> content[i+k] == delimiter[k]);
    }
    hide LineStart, OccursAt, DashBoundary, Fenced;
  }

  /** From `at` on, the form holds a part and its delimiter, and then `more`. */
  predicate LaidOut(s: Bytes, at: nat, boundary: Bytes, content: Bytes, more: Bytes) {
    at <= |s| && s[at..] == CRLF + content + CRLF + DashBoundary(boundary) + more
  }

  /** Where the decoder finds the end of the part that starts at `at`. */
  lemma PartEnds(s: Bytes, at: nat, boundary: Bytes, content: Bytes, more: Bytes)
    requires LaidOut(s, at, boundary, content, more)
    ensures at <= |s| && !OccursAt(s, at, DASHES) && OccursAt(s, at, CRLF)
    ensures var after := at + 4 + |content| + |DashBoundary(boundary)|; after <= |s| && s[after..] == more
    ensures FindDelimiter(s, boundary, at + 2).Some?
    ensures var next := FindDelimiter(s, boundary, at + 2).value;
      if NoDelimiterLine(content, boundary) then next == at + 4 + |content| && s[at+2..next-2] == content
      else next < at + 4 + |content|
  {
    TailPieces(s, at, content, boundary, more);
    OccursIn(s, at, 45, 45);
    OccursIn(s, at, 13, 10);
    NextDelimiter(s, at + 2, content, boundary);
    forall k | 0 <= k < |content| ensures s[at+2..at+2+|content|][k] == content[k] {
      assert s[at+2+k] == Fenced(content, boundary)[k];
    }
    hide LaidOut, OccursAt, NoDelimiterLine;
  }

  lemma DecodeUnfolds(s: Bytes, boundary: Bytes, at: nat)
    requires at <= |s| && !OccursAt(s, at, DASHES) && OccursAt(s, at, CRLF)
    requires FindDelimiter(s, boundary, at + 2).Some?
    ensures var next := FindDelimiter(s, boundary, at + 2).value;
      && next + |DashBoundary(boundary)| <= |s|
      && DecodeAfter(s, boundary, at) ==
        if next < at + 4 then None
        else Prepend(DecodeContent(s[at+2..next-2]), DecodeAfter(s, boundary, next + |DashBoundary(boundary)|))
  {
    hide Find, FindDelimiter, DecodeContent, OccursAt, DelimiterAt, DashBoundary, Prepend;
    DelimiterFits(s, FindDelimiter(s, boundary, at + 2).value, boundary);
    assert Find(s, CRLF, at) == Some(at);
  }

  lemma DelimiterFits(s: Bytes, i: nat, boundary: Bytes)
    requires DelimiterAt(s, i, boundary)
    ensures i + |DashBoundary(boundary)| <= |s|
  {
  }

  /** A part that is cut off at a line of its own that looks like a delimiter does not come back. */
  lemma DecodeCutPart(s: Bytes, at: nat, boundary: Bytes, length: nat)
    requires at <= |s| && !OccursAt(s, at, DASHES) && OccursAt(s, at, CRLF)
    requires FindDelimiter(s, boundary, at + 2).Some?
    requires FindDelimiter(s, boundary, at + 2).value < at + 4 + length
    ensures DecodeAfter(s, boundary, at).Some? ==>
      var parts := DecodeAfter(s, boundary, at).value;
      |parts| > 0 && |Content(parts[0])| < length
  {
    hide DecodeAfter, FindDelimiter, DashBoundary, DecodeContent, Content, OccursAt, Find;
    DecodeUnfolds(s, boundary, at);
    var next := FindDelimiter(s, boundary, at + 2).value;
    if next >= at + 4 {
      ContentIsLossless(s[at+2..next-2]);
    }
  }

  /** One part: it is decoded on its own and decoding goes on behind its delimiter, or it is cut off. */
  lemma DecodePart(s: Bytes, at: nat, boundary: Bytes, content: Bytes, more: Bytes)
    requires LaidOut(s, at, boundary, content, more)
    ensures var after := at + 4 + |content| + |DashBoundary(boundary)|;
      && after <= |s| && s[after..] == more
      && (NoDelimiterLine(content, boundary) ==>
            DecodeAfter(s, boundary, at) == Prepend(DecodeContent(content), DecodeAfter(s, boundary, after)))
    ensures !NoDelimiterLine(content, boundary) && DecodeAfter(s, boundary, at).Some? ==>
      var parts := DecodeAfter(s, boundary, at).value;
      |parts| > 0 && |Content(parts[0])| < |content|
  {
    hide DecodeAfter, FindDelimiter, DashBoundary, NoDelimiterLine, DecodeContent, Content,
         OccursAt, Find, LaidOut, Prepend;
    PartEnds(s, at, boundary, content, more);
    DecodeUnfolds(s, boundary, at);
    if !NoDelimiterLine(content, boundary) {
      DecodeCutPart(s, at, boundary, |content|);
    }
  }

  /** Decoding the rest of the form, from the end of a dash-boundary on. */
  lemma {:induction false} TailRoundTrip(s: Bytes, at: nat, boundary: Bytes, parts: seq<Part>)
    requires parts != []
    requires at <= |s| && s[at..] == Tail(boundary, parts)
    ensures DecodeAfter(s, boundary, at) == Some(parts) <==> forall i :: 0 <= i < |parts| ==> PartOk(parts[i], boundary)
    decreases |parts|
  {
    hide DecodeAfter, DecodeContent, Content, PartOk, DashBoundary, NoDelimiterLine, HeadersOk, Tail, Prepend, LaidOut, OccursAt;
    var content, rest := Content(parts[0]), parts[1..];
    var more := if |parts| == 1 then DASHES + CRLF else Tail(boundary, rest);
    TailIsLaidOut(s, at, boundary, parts);
    DecodePart(s, at, boundary, content, more);
    ContentRoundTrip(parts[0]);
    var after := at + 4 + |content| + |DashBoundary(boundary)|;
    if |parts| == 1 {
      LastDashes(s, boundary, after);
    } else {
      TailRoundTrip(s, after, boundary, rest);
    }
    AllOkCons(parts, boundary);
    PartOkParts(parts[0], boundary);
    PrependIs(DecodeContent(content), DecodeAfter(s, boundary, after), parts);
  }

  lemma TailIsLaidOut(s: Bytes, at: nat, boundary: Bytes, parts: seq<Part>)
    requires parts != [] && at <= |s| && s[at..] == Tail(boundary, parts)
    ensures LaidOut(s, at, boundary, Content(parts[0]), if |parts| == 1 then DASHES + CRLF else Tail(boundary, parts[1..]))
  {
    hide Content, DashBoundary;
  }

  lemma PrependIs(part: Option<Part>, rest: Option<seq<Part>>, parts: seq<Part>)
    requires parts != []
    ensures Prepend(part, rest) == Some(parts) <==> part == Some(parts[0]) && rest == Some(parts[1..])
  {
    assert parts == [parts[0]] + parts[1..];
  }

  lemma LastDashes(s: Bytes, boundary: Bytes, at: nat)
    requires at <= |s| && s[at..] == DASHES + CRLF
    ensures DecodeAfter(s, boundary, at) == Some([])
  {
    assert s[at] == s[at..][0] && s[at+1] == s[at..][1];
    OccursIn(s, at, 45, 45);
  }

  lemma AllOkCons(parts: seq<Part>, boundary: Bytes)
    requires parts != []
    ensures (forall i :: 0 <= i < |parts| ==> PartOk(parts[i], boundary))
       <==> PartOk(parts[0], boundary) && forall i :: 0 <= i < |parts[1..]| ==> PartOk(parts[1..][i], boundary)
  {
    hide PartOk;
    assert forall i :: 1 <= i < |parts| ==> parts[i] == parts[1..][i-1];
  }

  lemma PartOkParts(p: Part, boundary: Bytes)
    ensures PartOk(p, boundary) <==> HeadersOk(p.headers) && NoDelimiterLine(Content(p), boundary)
  {
  }

  /** The bytes of the form from `at` on. */
  lemma TailPieces(s: Bytes, at: nat, content: Bytes, boundary: Bytes, more: Bytes)
    requires LaidOut(s, at, boundary, content, more)
    ensures |s| == at + 2 + |Fenced(content, boundary)| + |more|
    ensures s[at] == CR && s[at+1] == LF
    ensures forall k :: 0 <= k < |Fenced(content, boundary)| ==> s[at+2+k] == Fenced(content, boundary)[k]
    ensures s[at+2+|Fenced(content, boundary)|..] == more
  {
    var fenced := Fenced(content, boundary);
    LayoutByFence(content, boundary, more);
    hide Fenced;
    var r := s[at..];
    assert s[at] == r[0] && s[at+1] == r[1];
    forall k | 0 <= k < |fenced| ensures s[at+2+k] == fenced[k] {
      assert s[at+2+k] == r[2+k];
    }
    forall k | 0 <= k < |more| ensures s[at+2+|fenced|..][k] == more[k] {
      assert s[at+2+|fenced|..][k] == r[2+|fenced|+k];
    }
  }

  lemma LayoutByFence(content: Bytes, boundary: Bytes, more: Bytes)
    ensures CRLF + content + CRLF + DashBoundary(boundary) + more == CRLF + Fenced(content, boundary) + more
  {
    hide DashBoundary;
  }

  /**
    The multipart round trip, for every non-empty list of parts and every boundary: decoding gives back the
    same headers and bodies in order exactly if every header can be told from its line and no delimiter
    comes before the one that the encoder writes behind a part.
   */
  lemma {:induction false} RoundTrip(boundary: Bytes, parts: seq<Part>)
    requires parts != []
    ensures DecodeForm(EncodeForm(boundary, parts), boundary) == Some(parts)
       <==> forall i :: 0 <= i < |parts| ==> PartOk(parts[i], boundary)
  {
    hide DecodeAfter, PartOk, Tail, DashBoundary, EncodeFrom;
    var s, delimiter := EncodeForm(boundary, parts), DashBoundary(boundary);
    EncodeIsTail(boundary, parts, true);
    assert s == delimiter + Tail(boundary, parts);
    StartsAtOnce(boundary, Tail(boundary, parts));
    TailRoundTrip(s, |delimiter|, boundary, parts);
  }

  lemma StartsAtOnce(boundary: Bytes, more: Bytes)
    ensures var s, delimiter := DashBoundary(boundary) + more, DashBoundary(boundary);
      FindDelimiter(s, boundary, 0) == Some(0) && s[|delimiter|..] == more
  {
    var s, delimiter := DashBoundary(boundary) + more, DashBoundary(boundary);
    assert s[0..] == s && s[..|delimiter|] == delimiter;
    assert DelimiterAt(s, 0, boundary);
  }

  // ---------------------------------------------------------------------------------------------
  // The form in octets: 45 is the hyphen, 13 and 10 end a line, 58 and 32 are the colon and space

  /** A header block is its lines and an empty line. */
  lemma ContentInOctets(h: Header, headers: seq<Header>, body: Bytes)
    ensures Content(Part([], body)) == [13, 10] + body
    ensures Content(Part([h] + headers, body)) == h.name + [58, 32] + h.value + [13, 10] + Content(Part(headers, body))
  {
    ContentCons(h, Part(headers, body));
    assert HeaderLines([]) == [];
    assert EncodeHeaders([]) == [13, 10];
  }

  /** One part: the dash-boundary line, the part, and the close delimiter. */
  lemma OnePartInOctets(boundary: Bytes, p: Part)
    ensures EncodeForm(boundary, [p]) ==
      [45, 45] + boundary + [13, 10] + Content(p) + [13, 10, 45, 45] + boundary + [45, 45, 13, 10]
  {
    hide Content;
    var start := [45, 45] + boundary + [13, 10];
    assert BoundaryData(Initial, boundary) == start;
    assert BoundaryData(Final, boundary) == [13, 10, 45, 45] + boundary + [45, 45, 13, 10];
    assert start + Content(p) + ([13, 10, 45, 45] + boundary + [45, 45, 13, 10])
        == start + Content(p) + [13, 10, 45, 45] + boundary + [45, 45, 13, 10];
  }

  /** A delimiter between parts is a line break and the dash-boundary line. */
  lemma LaterPartsInOctets(boundary: Bytes, parts: seq<Part>)
    requires parts != []
    ensures EncodeFrom(boundary, parts, false) == [13, 10] + EncodeForm(boundary, parts)
  {
    hide EncodeFrom, DashBoundary, Tail;
    EncodeIsTail(boundary, parts, true);
    EncodeIsTail(boundary, parts, false);
    var delimiter, tail := DashBoundary(boundary), Tail(boundary, parts);
    assert [] + delimiter + tail == delimiter + tail;
    assert [13, 10] + delimiter + tail == [13, 10] + (delimiter + tail);
  }

  /** More parts: the dash-boundary line, the first part, a line break, and the form of the others. */
  lemma MorePartsInOctets(boundary: Bytes, p: Part, parts: seq<Part>)
    requires parts != []
    ensures EncodeForm(boundary, [p] + parts) ==
      [45, 45] + boundary + [13, 10] + Content(p) + [13, 10] + EncodeForm(boundary, parts)
  {
    LaterPartsInOctets(boundary, parts);
    var rest := EncodeForm(boundary, parts);
    FirstOfMore(boundary, p, parts);
    hide EncodeFrom, Content;
    var start := [45, 45] + boundary + [13, 10];
    assert start + Content(p) + ([13, 10] + rest) == start + Content(p) + [13, 10] + rest;
  }

  lemma FirstOfMore(boundary: Bytes, p: Part, parts: seq<Part>)
    requires parts != []
    ensures EncodeForm(boundary, [p] + parts) ==
      [45, 45] + boundary + [13, 10] + Content(p) + EncodeFrom(boundary, parts, false)
  {
    hide Content;
    assert ([p] + parts)[1..] == parts;
    assert BoundaryData(Initial, boundary) == [45, 45] + boundary + [13, 10];
  }

  /** The first line and the last line of a form. */
  predicate Enclosed(form: Bytes, boundary: Bytes) {
    var first, last := [45, 45] + boundary + [13, 10], [13, 10, 45, 45] + boundary + [45, 45, 13, 10];
    && |first| + |last| <= |form|
    && form[..|first|] == first
    && form[|form|-|last|..] == last
  }

  lemma {:induction false} FormIsEnclosed(boundary: Bytes, parts: seq<Part>)
    requires parts != []
    ensures Enclosed(EncodeForm(boundary, parts), boundary)
  {
    hide Content, EncodeFrom;
    var first, last := [45, 45] + boundary + [13, 10], [13, 10, 45, 45] + boundary + [45, 45, 13, 10];
    var p, rest := parts[0], parts[1..];
    assert parts == [p] + rest;
    if rest == [] {
      assert parts == [p];
      OnePartInOctets(boundary, p);
      assert EncodeForm(boundary, parts) == first + Content(p) + last;
      Ends(first, Content(p), last);
    } else {
      FormIsEnclosed(boundary, rest);
      MorePartsInOctets(boundary, p, rest);
      var form := EncodeForm(boundary, rest);
      var init := form[..|form|-|last|];
      assert form == init + last;
      assert EncodeForm(boundary, parts) == first + (Content(p) + [13, 10] + init) + last;
      Ends(first, Content(p) + [13, 10] + init, last);
    }
  }

  lemma Ends(first: Bytes, middle: Bytes, last: Bytes)
    ensures var form := first + middle + last;
      form[..|first|] == first && form[|form|-|last|..] == last
  {
  }
}
