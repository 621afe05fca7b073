/** The chunked transfer coding (RFC 9112, section 7.1), written down as an encoder, and undone by
    the response parser. */
module ChunkedBody {
  import opened Wrappers
  import opened Text
  import opened Numbers
  import opened HeaderFields
  import opened HttpMessages
  import opened Lines
  import opened ResponseParser
  import opened ResponseFraming

  /** Data with the extensions on its size line. */
  datatype Chunk = Chunk(data: string, extensions: string)

  predicate ValidExtensions(text: string) {
    text == "" || (text[0] == ';' && forall i :: 0 <= i < |text| ==> IsLineCharacter(text[i]))
  }

  function SizeLine(size: nat, extensions: string): string {
    NumberText(size, 16) + extensions
  }

  function Encode(chunks: seq<Chunk>, last: string): string {
    if chunks == [] then last
    else
      SizeLine(|chunks[0].data|, chunks[0].extensions) + (CRLF + (chunks[0].data + (CRLF + Encode(chunks[1..], last))))
  }

  /** The last chunk, the trailer section and the line that ends it. */
  function EncodeEnd(extensions: string, trailers: seq<Field>, rest: string): string {
    SizeLine(0, extensions) + (CRLF + EncodeTrailers(trailers, rest))
  }

  function EncodeTrailers(trailers: seq<Field>, rest: string): string {
    if trailers == [] then CRLF + rest
    else FieldLine(trailers[0]) + (CRLF + EncodeTrailers(trailers[1..], rest))
  }

  function DataOf(chunks: seq<Chunk>): string {
    if chunks == [] then "" else chunks[0].data + DataOf(chunks[1..])
  }

  function AddTrailers(headers: Headers, trailers: seq<Field>): Headers
    decreases |trailers|
  {
    if trailers == [] then headers else AddTrailers(AddTrailer(headers, trailers[0]), trailers[1..])
  }

  lemma SizeLineRead(size: nat, extensions: string)
    requires size < U64_LIMIT && ValidExtensions(extensions)
    ensures ParseChunkSize(SizeLine(size, extensions)) == Some(size)
    ensures IsLine(SizeLine(size, extensions))
  {
    hide NumberText, ParseNumber, IsLine;
    var digits := NumberText(size, 16);
    HexDigits(size);
    ParsePrinted(size, 16, U64_LIMIT);
    TrimOfTrimmed(digits);
    CutExtensions(digits, extensions);
    DigitsAndExtensions(digits, extensions);
  }

  predicate PlainDigits(digits: string) {
    && digits != ""
    && forall i :: 0 <= i < |digits| ==> digits[i] != ';' && !IsBlank(digits[i]) && IsLineCharacter(digits[i])
  }

  lemma HexDigits(size: nat)
    ensures PlainDigits(NumberText(size, 16))
  {
    var digits := NumberText(size, 16);
    NumberRoundTrip(size, 16);
    forall i | 0 <= i < |digits| ensures digits[i] != ';' && !IsBlank(digits[i]) && IsLineCharacter(digits[i]) {
      assert IsLowerDigit(digits[i]);
    }
  }

  lemma CutExtensions(digits: string, extensions: string)
    requires PlainDigits(digits) && ValidExtensions(extensions)
    ensures var line := digits + extensions;
            digits == match FindChar(line, ';', 0) case Some(k) => line[..k] case None => line
  {
    var line := digits + extensions;
    if extensions == "" {
      assert line == digits;
    } else {
      FindCharIs(line, ';', 0, |digits|);
      assert line[..|digits|] == digits;
    }
  }

  lemma DigitsAndExtensions(digits: string, extensions: string)
    requires PlainDigits(digits) && ValidExtensions(extensions)
    ensures IsLine(digits + extensions)
  {
    var line := digits + extensions;
    forall i | 0 <= i < |line| ensures IsLineCharacter(line[i]) {
      assert line[i] == if i < |digits| then digits[i] else extensions[i - |digits|];
    }
  }

  /** What stands where, for text that starts with two pieces and two line ends. */
  lemma CutChunk(input: string, position: nat, line: string, data: string, rest: string)
    requires position <= |input| && input[position..] == line + (CRLF + (data + (CRLF + rest)))
    ensures var begin, next := position + |line| + 2, position + |line| + 2 + |data| + 2;
            && next <= |input| && At(input, CRLF, begin + |data|)
            && input[begin..begin + |data|] == data && input[next..] == rest
            && input[begin..] == data + (CRLF + rest)
  {
    hide At;
    var tail, begin := input[position..], position + |line| + 2;
    assert tail[|line| + 2..] == data + (CRLF + rest);
    assert input[begin..] == data + (CRLF + rest);
    assert input[begin + |data|] == '\r' && input[begin + |data| + 1] == '\n';
    AtCrlf(input, begin + |data|);
    assert input[begin..][|data| + 2..] == rest;
  }

  lemma ChunkRead(input: string, position: nat, collected: nat, chunk: Chunk, rest: string)
    requires position <= |input| < U64_LIMIT && chunk.data != "" && ValidExtensions(chunk.extensions)
    requires input[position..] == SizeLine(|chunk.data|, chunk.extensions) + (CRLF + (chunk.data + (CRLF + rest)))
    requires collected + |chunk.data| <= MAX_BODY
    ensures var step := ReadChunk(input, position, collected);
            && step.DataChunk? && step.size == |chunk.data|
            && input[step.data..step.data + step.size] == chunk.data
            && input[step.data + step.size + 2..] == rest
            && step.data + step.size + 2 == position + |SizeLine(|chunk.data|, chunk.extensions)| + 2 + |chunk.data| + 2
  {
    hide At, ParseChunkSize, SizeLine, IsLine;
    var line := SizeLine(|chunk.data|, chunk.extensions);
    SizeLineRead(|chunk.data|, chunk.extensions);
    SplitLine(input, position, line, chunk.data + (CRLF + rest));
    CutChunk(input, position, line, chunk.data, rest);
  }

  lemma TrailerRead(field: Field)
    requires PrintableField(field)
    ensures ParseTrailer(FieldLine(field)) == Ok(field)
  {
    FieldLineShape(field.name, field.value);
    TrimOfTrimmed(field.value);
  }

  /** The trailer section is read field by field, up to and including the empty line. */
  lemma {:induction false} TrailersRead(
      input: string, begin: nat, position: nat, trailers: seq<Field>, rest: string, body: string, headers: Headers)
    requires begin <= position <= |input| && input[position..] == EncodeTrailers(trailers, rest)
    requires forall field :: field in trailers ==> PrintableField(field)
    requires |rest| <= |input| && |input| - |rest| - 2 - begin <= MAX_HEADER
    ensures ParseTrailers(input, begin, position, body, headers) ==
            Done(body, AddTrailers(headers, trailers), |input| - |rest|)
    decreases |trailers|
  {
    hide At, ParseTrailer, AddTrailer, FieldLine, PrintableField, IsLine;
    if trailers == [] {
      assert input[position..][2..] == rest;
      assert input[position] == '\r' && input[position + 1] == '\n';
      AtCrlf(input, position);
      LineEnd(input, position, position);
    } else {
      var field := trailers[0];
      var line, more := FieldLine(field), EncodeTrailers(trailers[1..], rest);
      TrailerRead(field);
      FieldLineIsLine(field);
      SplitLine(input, position, line, more);
      LineNotEmpty(line);
      TrailersRead(input, begin, position + |line| + 2, trailers[1..], rest, body, AddTrailer(headers, field));
    }
  }

  lemma LineNotEmpty(line: string)
    requires IsLine(line)
    ensures line != ""
  {
  }

  /** Decoding undoes encoding: for all non-empty chunks, whatever their data and extensions, and
      all trailers, the parser returns the concatenated data and stops right behind the encoding. */
  lemma {:induction false} ChunksRead(
      input: string, position: nat, chunks: seq<Chunk>, extensions: string, trailers: seq<Field>, rest: string,
      body: string, headers: Headers)
    requires position <= |input| < U64_LIMIT
    requires input[position..] == Encode(chunks, EncodeEnd(extensions, trailers, rest))
    requires forall chunk :: chunk in chunks ==> chunk.data != "" && ValidExtensions(chunk.extensions)
    requires ValidExtensions(extensions) && forall field :: field in trailers ==> PrintableField(field)
    requires |body| + |DataOf(chunks)| <= MAX_BODY && |EncodeTrailers(trailers, "")| - 2 <= MAX_HEADER
    requires |rest| <= |input|
    ensures ParseChunks(input, position, body, headers) ==
            Done(body + DataOf(chunks), AddTrailers(headers, trailers), |input| - |rest|)
    decreases |chunks|
  {
    hide At, ReadChunk, ParseTrailers, ValidExtensions, PrintableField, SizeLine;
    if chunks == [] {
      LastChunkRead(input, position, |body|, extensions, EncodeTrailers(trailers, rest));
      var begin := position + |SizeLine(0, extensions)| + 2;
      TrailersLength(trailers, rest);
      TrailersRead(input, begin, begin, trailers, rest, body, headers);
      assert body + "" == body;
    } else {
      var chunk := chunks[0];
      var tail := Encode(chunks[1..], EncodeEnd(extensions, trailers, rest));
      ChunkRead(input, position, |body|, chunk, tail);
      var next := position + |SizeLine(|chunk.data|, chunk.extensions)| + 2 + |chunk.data| + 2;
      ChunksRead(input, next, chunks[1..], extensions, trailers, rest, body + chunk.data, headers);
      assert body + chunk.data + DataOf(chunks[1..]) == body + (chunk.data + DataOf(chunks[1..]));
    }
  }

  lemma LastChunkRead(input: string, position: nat, collected: nat, extensions: string, rest: string)
    requires position <= |input| && ValidExtensions(extensions)
    requires input[position..] == SizeLine(0, extensions) + (CRLF + rest)
    ensures ReadChunk(input, position, collected) == LastChunk(position + |SizeLine(0, extensions)| + 2)
    ensures position + |SizeLine(0, extensions)| + 2 <= |input|
    ensures input[position + |SizeLine(0, extensions)| + 2..] == rest
  {
    hide At, ParseChunkSize, SizeLine, IsLine;
    SizeLineRead(0, extensions);
    SplitLine(input, position, SizeLine(0, extensions), rest);
  }

  lemma TrailersLength(trailers: seq<Field>, rest: string)
    ensures |EncodeTrailers(trailers, rest)| == |EncodeTrailers(trailers, "")| + |rest|
  {
  }

  predicate EndsWith(text: string, rest: string) {
    |rest| <= |text| && text[|text| - |rest|..] == rest
  }

  lemma PrependedEnds(front: string, text: string, rest: string)
    requires EndsWith(text, rest)
    ensures EndsWith(front + (CRLF + text), rest)
  {
  }

  lemma TrailersRest(trailers: seq<Field>, rest: string)
    ensures EndsWith(EncodeTrailers(trailers, rest), rest)
  {
    hide EndsWith, FieldLine;
    if trailers == [] {
      assert EndsWith(CRLF + rest, rest) by {
        BehindCrlf(rest);
      }
    } else {
      TrailersRest(trailers[1..], rest);
      PrependedEnds(FieldLine(trailers[0]), EncodeTrailers(trailers[1..], rest), rest);
    }
  }

  lemma BehindCrlf(rest: string)
    ensures EndsWith(CRLF + rest, rest)
  {
  }

  /** The encoding ends with what follows it. */
  lemma EncodedRest(chunks: seq<Chunk>, extensions: string, trailers: seq<Field>, rest: string)
    ensures EndsWith(Encode(chunks, EncodeEnd(extensions, trailers, rest)), rest)
  {
    hide EndsWith, SizeLine;
    if chunks == [] {
      TrailersRest(trailers, rest);
      PrependedEnds(SizeLine(0, extensions), EncodeTrailers(trailers, rest), rest);
    } else {
      var chunk, text := chunks[0], Encode(chunks[1..], EncodeEnd(extensions, trailers, rest));
      EncodedRest(chunks[1..], extensions, trailers, rest);
      PrependedEnds(chunk.data, text, rest);
      PrependedEnds(SizeLine(|chunk.data|, chunk.extensions), chunk.data + (CRLF + text), rest);
    }
  }

  /** A whole chunked response: any head that announces the coding, an encoded body, and whatever
      follows it on the connection. */
  lemma ChunkedResponseRead(
      verb: Method, input: string, chunks: seq<Chunk>, extensions: string, trailers: seq<Field>, rest: string)
    requires StartOf(verb, input).Some? && StartOf(verb, input).value.framing.Chunked? && |input| < U64_LIMIT
    requires input[StartOf(verb, input).value.size..] == Encode(chunks, EncodeEnd(extensions, trailers, rest))
    requires forall chunk :: chunk in chunks ==> chunk.data != "" && ValidExtensions(chunk.extensions)
    requires ValidExtensions(extensions) && forall field :: field in trailers ==> PrintableField(field)
    requires |DataOf(chunks)| <= MAX_BODY && |EncodeTrailers(trailers, "")| - 2 <= MAX_HEADER
    ensures var r := ParseResponse(verb, input, false);
            && r.Finished? && r.response.body == DataOf(chunks)
            && r.consumed == |input| - |rest| && input[r.consumed..] == rest
            && r.response.headers == AddTrailers(StoredHeaders(StartOf(verb, input).value.head.fields), trailers)
  {
    hide StartOf, ParseResponse, ParseChunks, StoredHeaders, ClosesAfter, ValidExtensions, PrintableField;
    var start := StartOf(verb, input).value;
    OutcomeOfStart(verb, input, false);
    EncodedRest(chunks, extensions, trailers, rest);
    ChunksRead(input, start.size, chunks, extensions, trailers, rest, "", StoredHeaders(start.head.fields));
    assert "" + DataOf(chunks) == DataOf(chunks);
  }
}
