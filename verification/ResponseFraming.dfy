/** Where a response ends, and that this does not depend on how much of the stream has arrived
    (RFC 9112, section 6.3). */
module ResponseFraming {
  import opened Wrappers
  import opened Text
  import opened HeaderFields
  import opened HttpMessages
  import opened ResponseParser

  /** An outcome of the chunk reader that more bytes cannot change. */
  predicate Settled(r: ChunkOutcome) {
    r.Bad? || r.Done?
  }

  lemma {:induction false} TrailersStable(
      input: string, longer: string, begin: nat, position: nat, body: string, headers: Headers)
    requires begin <= position <= |input| && input <= longer
    requires Settled(ParseTrailers(input, begin, position, body, headers))
    ensures ParseTrailers(longer, begin, position, body, headers) ==
              ParseTrailers(input, begin, position, body, headers)
    decreases |input| - position
  {
    hide At, ParseTrailer, AddTrailer;
    FindStable(input, longer, CRLF, position);
    FoundInside(input, CRLF, position);
    var end := Find(input, CRLF, position).value;
    assert longer[position..end] == input[position..end];
    if end - begin <= MAX_HEADER && end != position {
      match ParseTrailer(input[position..end]) {
        case Err(_) =>
        case Ok(field) => TrailersStable(input, longer, begin, end + 2, body, AddTrailer(headers, field));
      }
    }
  }

  lemma ChunkStable(input: string, longer: string, position: nat, collected: nat)
    requires position <= |input| && input <= longer
    requires !ReadChunk(input, position, collected).StepMore? && !ReadChunk(input, position, collected).StepTooLong?
    ensures ReadChunk(longer, position, collected) == ReadChunk(input, position, collected)
  {
    hide At, ParseChunkSize;
    FindStable(input, longer, CRLF, position);
    FoundInside(input, CRLF, position);
    var end := Find(input, CRLF, position).value;
    assert longer[position..end] == input[position..end];
    var found := ParseChunkSize(input[position..end]);
    if found.Some? && end + 2 + found.value + 2 <= |input| {
      AtStable(input, longer, CRLF, end + 2 + found.value);
    }
  }

  lemma {:induction false} ChunksStable(input: string, longer: string, position: nat, body: string, headers: Headers)
    requires position <= |input| && input <= longer
    requires Settled(ParseChunks(input, position, body, headers))
    ensures ParseChunks(longer, position, body, headers) == ParseChunks(input, position, body, headers)
    decreases |input| - position
  {
    hide ReadChunk, ParseTrailers;
    ChunkStable(input, longer, position, |body|);
    match ReadChunk(input, position, |body|)
    case StepBad(_) =>
    case LastChunk(trailers) => TrailersStable(input, longer, trailers, trailers, body, headers);
    case DataChunk(data, size) =>
      assert longer[data..data + size] == input[data..data + size];
      ChunksStable(input, longer, data + size + 2, body + input[data..data + size], headers);
    case _ =>
  }

  datatype Start = Start(head: Head, framing: Framing, size: nat)

  /** The complete head of a response and the framing it announces. */
  function StartOf(verb: Method, input: string): (r: Option<Start>)
    ensures r.Some? ==> r.value.size <= |input|
  {
    match Find(input, CRLFCRLF, 0)
    case None => None
    case Some(end) =>
      if MAX_HEADER < end + 4 then None
      else
        match ParseHead(input[..end + 2])
        case Err(_) => None
        case Ok(head) =>
          match FramingOf(verb, head)
          case Err(_) => None
          case Ok(framing) => Some(Start(head, framing, end + 4))
  }

  /** Whether an attempt failed only because chunk metadata has not been completed within the
      limit: the one outcome that depends on how the bytes were split. */
  predicate Impatient(verb: Method, input: string) {
    match StartOf(verb, input)
    case Some(start) =>
      start.framing.Chunked? && ParseChunks(input, start.size, "", StoredHeaders(start.head.fields)).TooLong?
    case None => false
  }

  /** The metadata seen so far of a chunked response is shorter than the limit; others have none. */
  predicate Quiet(verb: Method, input: string) {
    match StartOf(verb, input)
    case Some(start) => start.framing.Chunked? ==> MetadataShort(input, start.size, 0)
    case None => true
  }

  lemma BodyStable(head: Head, framing: Framing, input: string, longer: string, headerSize: nat, eof: bool)
    requires headerSize <= |input| && input <= longer
    requires !BodyOutcome(head, framing, input, headerSize, false).NeedMore?
    requires framing.Chunked? ==> !ParseChunks(input, headerSize, "", StoredHeaders(head.fields)).TooLong?
    ensures BodyOutcome(head, framing, longer, headerSize, eof) == BodyOutcome(head, framing, input, headerSize, false)
  {
    hide ClosesAfter, ResponseOf, StoredHeaders;
    match framing
    case NoBody =>
    case Chunked => ChunksStable(input, longer, headerSize, "", StoredHeaders(head.fields));
    case Length(n) =>
      if headerSize + n <= |input| {
        assert longer[headerSize..headerSize + n] == input[headerSize..headerSize + n];
      }
    case UntilClose =>
  }

  /** The cut between head and body does not move. */
  lemma HeadStable(input: string, longer: string)
    requires input <= longer && Find(input, CRLFCRLF, 0).Some?
    ensures var end := Find(input, CRLFCRLF, 0).value;
            && end + 4 <= |input| && Find(longer, CRLFCRLF, 0) == Some(end)
            && longer[..end + 2] == input[..end + 2]
  {
    FindStable(input, longer, CRLFCRLF, 0);
    FoundInside(input, CRLFCRLF, 0);
  }

  /** A decided attempt keeps its outcome on every extension of the input, except the error for
      chunk metadata that is still incomplete. */
  lemma OutcomeStable(verb: Method, input: string, longer: string, eof: bool)
    requires input <= longer && !ParseResponse(verb, input, false).NeedMore? && !Impatient(verb, input)
    ensures ParseResponse(verb, longer, eof) == ParseResponse(verb, input, false)
  {
    hide At, ParseHead, FramingOf, BodyOutcome;
    if Find(input, CRLFCRLF, 0).Some? {
      HeadStable(input, longer);
      var start := StartOf(verb, input);
      if start.Some? {
        BodyStable(start.value.head, start.value.framing, input, longer, start.value.size, eof);
      }
    } else {
      FindStable(input, longer, CRLFCRLF, 0);
    }
  }

  /** A finished response ends at the same byte, and is the same, however much follows. */
  lemma FinishedStable(verb: Method, input: string, longer: string, eof: bool)
    requires input <= longer && ParseResponse(verb, input, false).Finished?
    ensures ParseResponse(verb, longer, eof) == ParseResponse(verb, input, false)
  {
    hide At, ParseHead, FramingOf;
    OutcomeStable(verb, input, longer, eof);
  }

  /** The lines of the trailer section from a position on, up to the first that is refused, keep it
      shorter than the limit; so does a line that is still incomplete. */
  predicate TrailersShort(input: string, begin: nat, position: nat)
    requires begin <= position <= |input|
    decreases |input| - position
  {
    match Find(input, CRLF, position)
    case None => |input| - begin <= MAX_HEADER
    case Some(end) =>
      && end - begin < MAX_HEADER
      && (end == position || ParseTrailer(input[position..end]).Err? || TrailersShort(input, begin, end + 2))
  }

  /** Every chunk-size line from a position on, and the trailer section, is shorter than the limit. */
  predicate MetadataShort(input: string, position: nat, collected: nat)
    requires position <= |input|
    decreases |input| - position
  {
    && (match Find(input, CRLF, position)
        case Some(end) => end - position < MAX_HEADER
        case None => |input| - position <= MAX_HEADER)
    && match ReadChunk(input, position, collected)
       case LastChunk(trailers) => TrailersShort(input, trailers, trailers)
       case DataChunk(data, size) => MetadataShort(input, data + size + 2, collected + size)
       case _ => true
  }

  /** How a prefix of a complete trailer section is judged. */
  lemma {:induction false} TrailersPrefix(
      input: string, k: nat, begin: nat, position: nat, body: string, headers: Headers)
    requires begin <= position <= k <= |input|
    requires ParseTrailers(input, begin, position, body, headers).Done?
    requires k < ParseTrailers(input, begin, position, body, headers).end
    ensures ParseTrailers(input[..k], begin, position, body, headers) ==
              if MAX_HEADER < k - begin then TooLong else More
    decreases |input| - position
  {
    hide At, ParseTrailer, AddTrailer;
    var prefix := input[..k];
    FindStable(prefix, input, CRLF, position);
    FoundInside(prefix, CRLF, position);
    var end := Find(input, CRLF, position).value;
    if end + 2 <= k {
      PrefixFinds(input, k, CRLF, position);
      assert prefix[position..end] == input[position..end];
      var field := ParseTrailer(input[position..end]);
      TrailersPrefix(input, k, begin, end + 2, body, AddTrailer(headers, field.value));
    }
  }

  /** An occurrence that ends inside a prefix is found in the prefix. */
  lemma PrefixFinds(input: string, k: nat, pattern: string, position: nat)
    requires k <= |input| && Find(input, pattern, position).Some?
    requires Find(input, pattern, position).value + |pattern| <= k
    ensures Find(input[..k], pattern, position) == Find(input, pattern, position)
  {
    hide At;
    FindStable(input[..k], input, pattern, position);
    AtStable(input[..k], input, pattern, Find(input, pattern, position).value);
  }

  /** A line that ends behind a prefix is not found in the prefix. */
  lemma PrefixLoses(input: string, k: nat, position: nat)
    requires position <= k <= |input|
    requires match Find(input, CRLF, position) case Some(end) => k < end + 2 case None => true
    ensures Find(input[..k], CRLF, position).None?
  {
    hide At;
    FindStable(input[..k], input, CRLF, position);
    FoundInside(input[..k], CRLF, position);
  }

  /** How a prefix judges the chunk at a position. */
  lemma ChunkPrefix(input: string, k: nat, position: nat, collected: nat)
    requires position <= k <= |input|
    ensures var end := Find(input, CRLF, position);
            var step, prefixStep := ReadChunk(input, position, collected), ReadChunk(input[..k], position, collected);
            if end.None? || k < end.value + 2 then
              prefixStep == if MAX_HEADER < k - position then StepTooLong else StepMore
            else
              && !prefixStep.StepTooLong?
              && (prefixStep.LastChunk? || prefixStep.DataChunk? ==> step == prefixStep)
              && (step.LastChunk? ==> prefixStep == step == LastChunk(end.value + 2))
              && (step.DataChunk? ==> step.data == end.value + 2)
              && (step.DataChunk? ==> prefixStep == if k < step.data + step.size + 2 then StepMore else step)
  {
    hide At, ParseChunkSize;
    var prefix, end := input[..k], Find(input, CRLF, position);
    if end.None? || k < end.value + 2 {
      PrefixLoses(input, k, position);
    } else {
      PrefixFinds(input, k, CRLF, position);
      assert prefix[position..end.value] == input[position..end.value];
      var size := ParseChunkSize(input[position..end.value]);
      if size.Some? && end.value + 2 + size.value + 2 <= k {
        AtPrefix(input, k, end.value + 2 + size.value);
      }
    }
  }

  lemma AtPrefix(input: string, k: nat, position: nat)
    requires position + 2 <= k <= |input|
    ensures At(input[..k], CRLF, position) == At(input, CRLF, position)
  {
    AtStable(input[..k], input, CRLF, position);
  }

  /** A prefix that holds a whole chunk goes on behind it, with the same data. */
  lemma PrefixGoesOn(input: string, k: nat, position: nat, body: string, headers: Headers)
    requires position <= k <= |input| && ReadChunk(input, position, |body|).DataChunk?
    requires var step := ReadChunk(input, position, |body|); step.data + step.size + 2 <= k
    ensures var step := ReadChunk(input, position, |body|);
            ParseChunks(input[..k], position, body, headers) ==
              ParseChunks(input[..k], step.data + step.size + 2, body + input[step.data..step.data + step.size],
                          headers)
  {
    hide ReadChunk, ParseTrailers;
    StepBehind(input, position, |body|);
    ChunkPrefix(input, k, position, |body|);
    var prefix, step := input[..k], ReadChunk(input, position, |body|);
    hide ParseChunks;
    GoesOn(prefix, position, body, headers);
    SamePart(input, k, step.data, step.data + step.size);
  }

  lemma SamePart(input: string, k: nat, lo: nat, hi: nat)
    requires lo <= hi <= k <= |input|
    ensures input[..k][lo..hi] == input[lo..hi]
  {
  }

  lemma GoesOn(input: string, position: nat, body: string, headers: Headers)
    requires position <= |input| && ReadChunk(input, position, |body|).DataChunk?
    ensures var step := ReadChunk(input, position, |body|);
            ParseChunks(input, position, body, headers) ==
              ParseChunks(input, step.data + step.size + 2, body + input[step.data..step.data + step.size], headers)
  {
    hide ReadChunk, ParseTrailers;
  }

  /** A strict prefix of a complete chunked body never fails for another reason than its
      metadata being incomplete and too long. */
  lemma {:induction false} ChunksPrefix(input: string, k: nat, position: nat, body: string, headers: Headers)
    requires position <= k && k < |input| && ParseChunks(input, position, body, headers).Done?
    requires k < ParseChunks(input, position, body, headers).end
    ensures var outcome := ParseChunks(input[..k], position, body, headers); outcome.More? || outcome.TooLong?
    decreases |input| - position
  {
    hide ReadChunk, ParseTrailers;
    ChunkPrefix(input, k, position, |body|);
    match ReadChunk(input, position, |body|)
    case LastChunk(trailers) =>
      if trailers <= k {
        TrailersPrefix(input, k, trailers, trailers, body, headers);
      }
    case DataChunk(data, size) =>
      var next, more := data + size + 2, body + input[data..data + size];
      if next <= k {
        PrefixGoesOn(input, k, position, body, headers);
        ChunksPrefix(input, k, next, more, headers);
      }
    case _ =>
  }

  // ----- which metadata is refused while it is incomplete

  lemma {:induction false} ShortTrailersPass(
      input: string, k: nat, begin: nat, position: nat, body: string, headers: Headers)
    requires begin <= position <= k <= |input| && TrailersShort(input, begin, position)
    ensures !ParseTrailers(input[..k], begin, position, body, headers).TooLong?
    decreases |input| - position
  {
    hide At, ParseTrailer, AddTrailer;
    var end := Find(input, CRLF, position);
    if end.None? || k < end.value + 2 {
      PrefixLoses(input, k, position);
    } else {
      PrefixFinds(input, k, CRLF, position);
      assert input[..k][position..end.value] == input[position..end.value];
      var field := ParseTrailer(input[position..end.value]);
      if end.value != position && field.Ok? {
        ShortTrailersPass(input, k, begin, end.value + 2, body, AddTrailer(headers, field.value));
      }
    }
  }

  lemma {:induction false} ShortMetadataPasses(input: string, k: nat, position: nat, body: string, headers: Headers)
    requires position <= k <= |input| && MetadataShort(input, position, |body|)
    ensures !ParseChunks(input[..k], position, body, headers).TooLong?
    decreases |input| - position
  {
    hide ReadChunk, ParseTrailers, TrailersShort, ParseChunks, MetadataShort;
    ShortParts(input, position, |body|);
    ChunkPrefix(input, k, position, |body|);
    var step := ReadChunk(input[..k], position, |body|);
    if step.LastChunk? {
      ShortTrailersPass(input, k, step.trailers, step.trailers, body, headers);
      EndsWithTrailers(input[..k], position, body, headers);
    } else if step.DataChunk? {
      PrefixGoesOn(input, k, position, body, headers);
      ShortMetadataPasses(input, k, step.data + step.size + 2, body + input[step.data..step.data + step.size], headers);
    } else {
      StopsHere(input[..k], position, body, headers);
    }
  }

  lemma ShortParts(input: string, position: nat, collected: nat)
    requires position <= |input| && MetadataShort(input, position, collected)
    ensures match Find(input, CRLF, position)
            case Some(end) => end - position < MAX_HEADER
            case None => |input| - position <= MAX_HEADER
    ensures var step := ReadChunk(input, position, collected);
            && (step.LastChunk? ==> TrailersShort(input, step.trailers, step.trailers))
            && (step.DataChunk? ==> MetadataShort(input, step.data + step.size + 2, collected + step.size))
  {
    hide ReadChunk, TrailersShort;
  }

  lemma EndsWithTrailers(input: string, position: nat, body: string, headers: Headers)
    requires position <= |input| && ReadChunk(input, position, |body|).LastChunk?
    ensures var trailers := ReadChunk(input, position, |body|).trailers;
            ParseChunks(input, position, body, headers) == ParseTrailers(input, trailers, trailers, body, headers)
  {
    hide ReadChunk, ParseTrailers;
  }

  lemma StopsHere(input: string, position: nat, body: string, headers: Headers)
    requires position <= |input|
    ensures var step := ReadChunk(input, position, |body|);
            step.StepMore? || step.StepBad? ==> !ParseChunks(input, position, body, headers).TooLong?
  {
    hide ReadChunk, ParseTrailers;
  }

  lemma {:induction false} LongTrailersFail(input: string, begin: nat, position: nat, body: string, headers: Headers)
      returns (k: nat)
    requires begin <= position <= |input| && !TrailersShort(input, begin, position)
    ensures position <= k <= |input| && ParseTrailers(input[..k], begin, position, body, headers).TooLong?
    ensures ParseTrailers(input, begin, position, body, headers).Done? ==>
              k < ParseTrailers(input, begin, position, body, headers).end
    decreases |input| - position
  {
    hide At, ParseTrailer, AddTrailer;
    var end := Find(input, CRLF, position);
    FoundInside(input, CRLF, position);
    if end.None? || MAX_HEADER <= end.value - begin {
      k := if end.None? then |input| else end.value + 1;
      PrefixLoses(input, k, position);
    } else {
      var field := ParseTrailer(input[position..end.value]);
      k := LongTrailersFail(input, begin, end.value + 2, body, AddTrailer(headers, field.value));
      PrefixFinds(input, k, CRLF, position);
      assert input[..k][position..end.value] == input[position..end.value];
    }
  }

  lemma StepBehind(input: string, position: nat, collected: nat)
    requires position <= |input|
    ensures var end, step := Find(input, CRLF, position), ReadChunk(input, position, collected);
            && (end.None? ==> !step.LastChunk? && !step.DataChunk?)
            && (end.Some? ==> end.value + 2 <= |input|)
            && (step.LastChunk? ==> step.trailers == end.value + 2)
            && (step.DataChunk? ==> step.data == end.value + 2)
  {
    hide At, ParseChunkSize;
    FoundInside(input, CRLF, position);
  }

  lemma LongLineFails(input: string, position: nat, body: string, headers: Headers) returns (k: nat)
    requires position <= |input| && !MetadataShort(input, position, |body|)
    requires var end := Find(input, CRLF, position); end.None? || MAX_HEADER <= end.value - position
    ensures position <= k <= |input| && ParseChunks(input[..k], position, body, headers).TooLong?
    ensures ParseChunks(input, position, body, headers).Done? ==> k < ParseChunks(input, position, body, headers).end
  {
    hide ReadChunk, ParseTrailers, TrailersShort;
    var end := Find(input, CRLF, position);
    StepBehind(input, position, |body|);
    k := if end.None? then |input| else end.value + 1;
    ChunkPrefix(input, k, position, |body|);
  }

  /** If some metadata is too long, the attempt at some prefix fails; in a complete body, one that ends inside it. */
  lemma {:induction false} LongMetadataFails(input: string, position: nat, body: string, headers: Headers)
      returns (k: nat)
    requires position <= |input| && !MetadataShort(input, position, |body|)
    ensures position <= k <= |input| && ParseChunks(input[..k], position, body, headers).TooLong?
    ensures ParseChunks(input, position, body, headers).Done? ==> k < ParseChunks(input, position, body, headers).end
    decreases |input| - position
  {
    hide ReadChunk, ParseTrailers, TrailersShort;
    var end := Find(input, CRLF, position);
    StepBehind(input, position, |body|);
    if end.None? || MAX_HEADER <= end.value - position {
      k := LongLineFails(input, position, body, headers);
    } else {
      match ReadChunk(input, position, |body|)
      case LastChunk(trailers) =>
        k := LongTrailersFail(input, trailers, trailers, body, headers);
        ChunkPrefix(input, k, position, |body|);
      case DataChunk(data, size) =>
        k := LongMetadataFails(input, data + size + 2, body + input[data..data + size], headers);
        PrefixGoesOn(input, k, position, body, headers);
    }
  }

  /** A prefix that reaches past the head has the same head. */
  lemma StartOfPrefix(verb: Method, input: string, k: nat)
    requires k <= |input| && StartOf(verb, input).Some?
    ensures StartOf(verb, input).value.size <= k ==> StartOf(verb, input[..k]) == StartOf(verb, input)
    ensures k < StartOf(verb, input).value.size ==> ParseResponse(verb, input[..k], false) == NeedMore
  {
    hide At, ParseHead, FramingOf, Deliver;
    var end := Find(input, CRLFCRLF, 0).value;
    FoundInside(input[..k], CRLFCRLF, 0);
    FindStable(input[..k], input, CRLFCRLF, 0);
    if end + 4 <= k {
      PrefixFinds(input, k, CRLFCRLF, 0);
      assert input[..k][..end + 2] == input[..end + 2];
    }
  }

  lemma OutcomeOfStart(verb: Method, input: string, eof: bool)
    ensures match StartOf(verb, input)
            case Some(start) =>
              ParseResponse(verb, input, eof) == BodyOutcome(start.head, start.framing, input, start.size, eof)
            case None => !ParseResponse(verb, input, eof).Finished?
  {
    hide At, ParseHead, FramingOf, BodyOutcome;
  }

  /** For every stream, complete or not: no attempt at a part of it fails because metadata is
      incomplete, exactly when the metadata is shorter than the limit. */
  lemma QuietExact(verb: Method, input: string)
    ensures Quiet(verb, input) <==> forall k :: 0 <= k <= |input| ==> !Impatient(verb, input[..k])
  {
    hide StartOf, ParseChunks, StoredHeaders, MetadataShort;
    if Quiet(verb, input) {
      forall k | 0 <= k <= |input| ensures !Impatient(verb, input[..k]) {
        QuietPrefix(verb, input, k);
      }
    } else {
      var start := StartOf(verb, input).value;
      var k := LongMetadataFails(input, start.size, "", StoredHeaders(start.head.fields));
      StartOfPrefix(verb, input, k);
      assert Impatient(verb, input[..k]);
    }
  }

  lemma QuietPrefix(verb: Method, input: string, k: nat)
    requires Quiet(verb, input) && k <= |input|
    ensures !Impatient(verb, input[..k])
  {
    hide StartOf, ParseChunks, StoredHeaders, MetadataShort;
    if StartOf(verb, input[..k]).Some? {
      StartGrows(verb, input, k);
      var start := StartOf(verb, input).value;
      if start.framing.Chunked? {
        ShortMetadataPasses(input, k, start.size, "", StoredHeaders(start.head.fields));
      }
    }
  }

  lemma StartGrows(verb: Method, input: string, k: nat)
    requires k <= |input| && StartOf(verb, input[..k]).Some?
    ensures StartOf(verb, input) == StartOf(verb, input[..k])
  {
    hide At, ParseHead, FramingOf;
    HeadStable(input[..k], input);
  }

  lemma ImpatientFails(verb: Method, input: string)
    requires Impatient(verb, input)
    ensures ParseResponse(verb, input, false) == Failed(HEADER_TOO_LARGE)
  {
    hide StartOf, ParseResponse, ParseChunks;
    OutcomeOfStart(verb, input, false);
  }

  /** A finished response takes exactly its own bytes: every strict prefix of them is undecided,
      except that overlong chunk metadata may be refused before it is complete. */
  lemma PrefixOutcome(verb: Method, input: string, k: nat)
    requires ParseResponse(verb, input, false).Finished? && k < ParseResponse(verb, input, false).consumed
    ensures ParseResponse(verb, input[..k], false) == NeedMore || Impatient(verb, input[..k])
  {
    hide ParseResponse, StartOf, ParseChunks, ClosesAfter, StoredHeaders;
    OutcomeOfStart(verb, input, false);
    StartOfPrefix(verb, input, k);
    var start := StartOf(verb, input).value;
    if start.size <= k {
      OutcomeOfStart(verb, input[..k], false);
      if start.framing.Chunked? {
        ChunksPrefix(input, k, start.size, "", StoredHeaders(start.head.fields));
      }
    }
  }

  predicate Undecided(verb: Method, input: string, k: nat) {
    k <= |input| && ParseResponse(verb, input[..k], false) == NeedMore
  }

  /** No strict prefix of a finished response is decided, exactly when its chunk-size lines and
      its trailer section are shorter than the limit. */
  lemma PrefixExact(verb: Method, input: string)
    requires ParseResponse(verb, input, false).Finished?
    ensures Quiet(verb, input) <==>
            forall k :: 0 <= k < ParseResponse(verb, input, false).consumed ==> Undecided(verb, input, k)
  {
    hide ParseResponse, StartOf, ParseChunks, StoredHeaders, MetadataShort;
    var n := ParseResponse(verb, input, false).consumed;
    if Quiet(verb, input) {
      QuietExact(verb, input);
      forall k | 0 <= k < n ensures Undecided(verb, input, k) {
        PrefixOutcome(verb, input, k);
      }
    } else {
      OutcomeOfStart(verb, input, false);
      var start := StartOf(verb, input).value;
      var k := LongMetadataFails(input, start.size, "", StoredHeaders(start.head.fields));
      StartOfPrefix(verb, input, k);
      ImpatientFails(verb, input[..k]);
      assert !Undecided(verb, input, k);
    }
  }
}
