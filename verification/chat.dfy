/** The chat hook of the web front end: sending a message appends the user's
    message and an empty assistant placeholder, streams the server's
    server-sent events into the placeholder, and on any failure replaces the
    placeholder's text by an error line.

    The network is a parameter: a `Transport` says how the request went and
    which text chunks the stream delivered; `JSON.parse` followed by reading
    the `response` field is the parameter `parse`; `Date.now()` is given as
    the two decimal texts the two calls produced. */
module Chat {
  import opened Wrappers
  import opened Strings
  import opened Sublists

  datatype Role = User | Assistant

  datatype Message = Message(id: string, role: Role, content: string)

  /** A thrown value: an `Error` carries a message, anything else does not. */
  datatype Thrown = ErrorValue(message: string) | OtherValue

  /** What parsing one event payload yields: a parse failure (or a throw
      while reading the field), a falsy `response`, or a truthy one given
      as the text that string concatenation makes of it. */
  datatype Parsed = Unparsable | Falsy | Truthy(text: string)

  /** How the request went. `NotOk` covers both `!response.ok` and a
      missing body; `Streamed` lists the decoded chunks in read order and,
      when a later read rejects, what it threw. */
  datatype Transport =
    | FetchRejected(thrown: Thrown)
    | NotOk(statusText: string)
    | Streamed(chunks: seq<string>, readFailure: Option<Thrown>)

  const USER_ID_PREFIX := "user-"
  const ASSISTANT_ID_PREFIX := "assistant-"
  const EVENT_SEPARATOR := "\n\n"
  const DATA_PREFIX := "data: "
  const REQUEST_FAILED := "API request failed: "
  const UNKNOWN_ERROR := "An unknown error occurred."
  const ERROR_PREFIX := "Error: "

  /** The characters `String.prototype.trim` removes: white space and line
      terminators. */
  predicate IsJsSpace(c: char)
  {
    c == '\t' || c == '\n' || c == '\U{000B}' || c == '\U{000C}' || c == '\r' || c == ' '
    || c == '\U{00A0}' || c == '\U{1680}' || ('\U{2000}' <= c <= '\U{200A}')
    || c == '\U{2028}' || c == '\U{2029}' || c == '\U{202F}' || c == '\U{205F}'
    || c == '\U{3000}' || c == '\U{FEFF}'
  }

  /** `!s.trim()`: nothing is left after trimming. */
  predicate Blank(s: string)
  {
    forall k :: 0 <= k < |s| ==> IsJsSpace(s[k])
  }

  predicate IsDataLine(line: string)
  {
    StartsWith(line, DATA_PREFIX)
  }

  /** The event payloads of one chunk: the `\n\n`-separated pieces that start
      with `data: `, with the first `data: ` replaced by nothing. */
  function Segments(chunk: string): seq<string>
  {
    var lines := Filter(Split(chunk, EVENT_SEPARATOR), IsDataLine);
    seq(|lines|, k requires 0 <= k < |lines| => ReplaceFirst(lines[k], DATA_PREFIX, ""))
  }

  /** Each payload is a data piece of the chunk without its `data: ` prefix,
      taken in the order of the pieces, and holds no event separator. */
  lemma SegmentsArePayloads(chunk: string)
    ensures var parts := Split(chunk, EVENT_SEPARATOR);
            var idx := KeptIndices(parts, IsDataLine);
            |Segments(chunk)| == |idx|
            && forall k :: 0 <= k < |idx| ==>
                 IsDataLine(parts[idx[k]]) && Segments(chunk)[k] == parts[idx[k]][|DATA_PREFIX|..]
                 && Free(Segments(chunk)[k], EVENT_SEPARATOR)
  {
    var parts := Split(chunk, EVENT_SEPARATOR);
    var idx := KeptIndices(parts, IsDataLine);
    var lines := Filter(parts, IsDataLine);
    FilterAtKeptIndices(parts, IsDataLine);
    SplitPartsFree(chunk, EVENT_SEPARATOR);
    forall k | 0 <= k < |idx|
      ensures IsDataLine(parts[idx[k]]) && Segments(chunk)[k] == parts[idx[k]][|DATA_PREFIX|..]
      ensures Free(Segments(chunk)[k], EVENT_SEPARATOR)
    {
      assert lines[k] == parts[idx[k]];
      assert lines[k] in lines;
      ReplaceLeadingPrefix(lines[k], DATA_PREFIX);
      SuffixFree(lines[k], |DATA_PREFIX|, EVENT_SEPARATOR);
    }
  }

  /** Every data piece of the chunk contributes a payload. */
  lemma DataPiecesKept(chunk: string)
    ensures var parts := Split(chunk, EVENT_SEPARATOR);
            forall i :: 0 <= i < |parts| ==> (i in KeptIndices(parts, IsDataLine) <==> IsDataLine(parts[i]))
  {
    KeptIndicesExact(Split(chunk, EVENT_SEPARATOR), IsDataLine);
  }

  /** A suffix of a text free of a pattern is free of it too. */
  lemma SuffixFree(s: string, n: nat, pat: string)
    requires n <= |s| && Free(s, pat)
    ensures Free(s[n..], pat)
  {
    forall j | 0 <= j <= |s[n..]|
      ensures !OccursAt(s[n..], pat, j)
    {
      if j + |pat| <= |s[n..]| {
        assert s[n..][j..j + |pat|] == s[n + j..n + j + |pat|];
        assert !OccursAt(s, pat, n + j);
      }
    }
  }

  /** A chunk holding a single event yields exactly its payload. */
  lemma SingleEvent(payload: string)
    requires Free(DATA_PREFIX + payload, EVENT_SEPARATOR)
    ensures Segments(DATA_PREFIX + payload) == [payload]
  {
    var chunk := DATA_PREFIX + payload;
    assert IsDataLine(chunk) by {
      assert chunk[..|DATA_PREFIX|] == DATA_PREFIX;
    }
    SingleDataLine(chunk);
    ReplaceLeadingPrefix(chunk, DATA_PREFIX);
    assert chunk[|DATA_PREFIX|..] == payload;
  }

  lemma SingleDataLine(chunk: string)
    requires Free(chunk, EVENT_SEPARATOR) && IsDataLine(chunk)
    ensures Filter(Split(chunk, EVENT_SEPARATOR), IsDataLine) == [chunk]
  {
    SplitFree(chunk, EVENT_SEPARATOR);
    FilterAll([chunk], IsDataLine);
  }

  /** A chunk without separators that is not a data event yields nothing. */
  lemma NonDataChunk(chunk: string)
    requires Free(chunk, EVENT_SEPARATOR) && !IsDataLine(chunk)
    ensures Segments(chunk) == []
  {
    SplitFree(chunk, EVENT_SEPARATOR);
    assert Filter([chunk], IsDataLine) == [] by {
      assert [chunk][..0] == [];
    }
  }

  /** The payloads of a whole stream, chunk after chunk. */
  function StreamSegments(chunks: seq<string>): seq<string>
  {
    if chunks == [] then []
    else StreamSegments(chunks[..|chunks| - 1]) + Segments(chunks[|chunks| - 1])
  }

  /** `prev.map(msg => msg.id === id ? { ...msg, content: msg.content + text } : msg)` */
  function AppendToId(ms: seq<Message>, id: string, text: string): seq<Message>
  {
    seq(|ms|, i requires 0 <= i < |ms| =>
      if ms[i].id == id then ms[i].(content := ms[i].content + text) else ms[i])
  }

  /** `prev.map(msg => msg.id === id ? { ...msg, content: text } : msg)` */
  function SetContentOfId(ms: seq<Message>, id: string, text: string): seq<Message>
  {
    seq(|ms|, i requires 0 <= i < |ms| =>
      if ms[i].id == id then ms[i].(content := text) else ms[i])
  }

  /** One payload: a truthy `response` is appended, anything else is
      skipped. */
  function ApplySegment(ms: seq<Message>, id: string, parse: string -> Parsed, segment: string): seq<Message>
  {
    match parse(segment)
    case Truthy(text) => AppendToId(ms, id, text)
    case _ => ms
  }

  function ApplySegments(ms: seq<Message>, id: string, parse: string -> Parsed, segments: seq<string>): (r: seq<Message>)
    ensures |r| == |ms|
  {
    if segments == [] then ms
    else ApplySegment(ApplySegments(ms, id, parse, segments[..|segments| - 1]), id, parse, segments[|segments| - 1])
  }

  function ResponseOf(parse: string -> Parsed, segment: string): string
  {
    match parse(segment)
    case Truthy(text) => text
    case _ => ""
  }

  /** The text a run of payloads contributes: the truthy responses in
      order. */
  function ResponseText(parse: string -> Parsed, segments: seq<string>): string
  {
    if segments == [] then ""
    else ResponseText(parse, segments[..|segments| - 1]) + ResponseOf(parse, segments[|segments| - 1])
  }

  /** Applying the payloads appends their response text to every message
      carrying the placeholder's id and changes nothing else. */
  lemma {:induction false} ApplySegmentsAppends(ms: seq<Message>, id: string, parse: string -> Parsed, segments: seq<string>)
    ensures |ApplySegments(ms, id, parse, segments)| == |ms|
    ensures forall i :: 0 <= i < |ms| ==>
      ApplySegments(ms, id, parse, segments)[i]
        == if ms[i].id == id then ms[i].(content := ms[i].content + ResponseText(parse, segments)) else ms[i]
  {
    if segments != [] {
      var init := segments[..|segments| - 1];
      ApplySegmentsAppends(ms, id, parse, init);
      var before := ApplySegments(ms, id, parse, init);
      var last := segments[|segments| - 1];
      forall i | 0 <= i < |ms| && ms[i].id == id
        ensures ApplySegments(ms, id, parse, segments)[i].content == ms[i].content + ResponseText(parse, segments)
      {
        calc {
          ApplySegments(ms, id, parse, segments)[i].content;
          before[i].content + ResponseOf(parse, last);
          ms[i].content + ResponseText(parse, init) + ResponseOf(parse, last);
          ms[i].content + ResponseText(parse, segments);
        }
      }
    }
  }

  /** Applying two runs of payloads one after the other is applying their
      concatenation. */
  lemma {:induction false} ApplySegmentsConcat(ms: seq<Message>, id: string, parse: string -> Parsed, a: seq<string>, b: seq<string>)
    ensures ApplySegments(ms, id, parse, a + b) == ApplySegments(ApplySegments(ms, id, parse, a), id, parse, b)
    decreases |b|
  {
    if b != [] {
      var init := b[..|b| - 1];
      ApplySegmentsConcat(ms, id, parse, a, init);
      assert (a + b)[..|a + b| - 1] == a + init;
    } else {
      assert a + b == a;
    }
  }

  /** Response text is additive over consecutive runs of payloads. */
  lemma {:induction false} ResponseTextAppend(parse: string -> Parsed, a: seq<string>, b: seq<string>)
    ensures ResponseText(parse, a + b) == ResponseText(parse, a) + ResponseText(parse, b)
    decreases |b|
  {
    if b != [] {
      var init := b[..|b| - 1];
      ResponseTextAppend(parse, a, init);
      assert (a + b)[..|a + b| - 1] == a + init;
    } else {
      assert a + b == a;
    }
  }

  /** A payload that does not parse is skipped and the payloads after it
      still count. */
  lemma UnparsableSkipped(parse: string -> Parsed, before: seq<string>, segment: string, after: seq<string>)
    requires parse(segment) == Unparsable
    ensures ResponseText(parse, before + [segment] + after) == ResponseText(parse, before) + ResponseText(parse, after)
  {
    ResponseTextAppend(parse, before + [segment], after);
    assert (before + [segment])[..|before|] == before;
  }

  function ThrownMessage(thrown: Thrown): string
  {
    match thrown
    case ErrorValue(message) => message
    case OtherValue => UNKNOWN_ERROR
  }

  /** The message of the error the catch block receives, if any. */
  function FailureOf(transport: Transport): Option<string>
  {
    match transport
    case FetchRejected(thrown) => Some(ThrownMessage(thrown))
    case NotOk(statusText) => Some(REQUEST_FAILED + statusText)
    case Streamed(_, None) => None
    case Streamed(_, Some(thrown)) => Some(ThrownMessage(thrown))
  }

  /** The chunks read before the request ended or failed. */
  function ChunksOf(transport: Transport): seq<string>
  {
    if transport.Streamed? then transport.chunks else []
  }

  function UserMessage(content: string, userClock: string): Message
  {
    Message(USER_ID_PREFIX + userClock, User, content)
  }

  function Placeholder(botClock: string): Message
  {
    Message(ASSISTANT_ID_PREFIX + botClock, Assistant, "")
  }

  /** The message list after a send of non-blank content completes. */
  function AfterSend(ms: seq<Message>, content: string, userClock: string, botClock: string,
                     transport: Transport, parse: string -> Parsed): (r: seq<Message>)
    ensures |r| == |ms| + 2
  {
    var id := Placeholder(botClock).id;
    var started := ms + [UserMessage(content, userClock), Placeholder(botClock)];
    var streamed := ApplySegments(started, id, parse, StreamSegments(ChunksOf(transport)));
    match FailureOf(transport)
    case None => streamed
    case Some(message) => SetContentOfId(streamed, id, ERROR_PREFIX + message)
  }

  /** The user's message and the placeholder never share an id. */
  lemma UserIdIsNotPlaceholderId(userClock: string, botClock: string)
    ensures UserMessage("", userClock).id != Placeholder(botClock).id
  {
    assert UserMessage("", userClock).id[0] == 'u';
    assert Placeholder(botClock).id[0] == 'a';
  }

  /** A send appends the user's message and then the placeholder after the
      existing messages. Ids and roles never change afterwards, the user's
      message is kept as sent, and an earlier message changes only when it
      happens to carry the placeholder's id. */
  lemma SendAppendsTwo(ms: seq<Message>, content: string, userClock: string, botClock: string,
                       transport: Transport, parse: string -> Parsed)
    ensures var r := AfterSend(ms, content, userClock, botClock, transport, parse);
            |r| == |ms| + 2
            && r[|ms|] == UserMessage(content, userClock)
            && r[|ms| + 1].id == Placeholder(botClock).id && r[|ms| + 1].role == Assistant
            && (forall i :: 0 <= i < |ms| ==> r[i].id == ms[i].id && r[i].role == ms[i].role)
            && (forall i :: 0 <= i < |ms| && ms[i].id != Placeholder(botClock).id ==> r[i] == ms[i])
  {
    var started := ms + [UserMessage(content, userClock), Placeholder(botClock)];
    ApplySegmentsAppends(started, Placeholder(botClock).id, parse, StreamSegments(ChunksOf(transport)));
    UserIdIsNotPlaceholderId(userClock, botClock);
    assert started[|ms|] == UserMessage(content, userClock);
    assert forall i :: 0 <= i < |ms| ==> started[i] == ms[i];
  }

  /** Without a failure the placeholder ends holding the truthy responses of
      every data payload of the stream, in order; after a failure it holds
      `Error: ` and the error's message instead. */
  lemma PlaceholderContent(ms: seq<Message>, content: string, userClock: string, botClock: string,
                           transport: Transport, parse: string -> Parsed)
    ensures var r := AfterSend(ms, content, userClock, botClock, transport, parse);
            |r| == |ms| + 2 &&
            r[|ms| + 1].content
              == match FailureOf(transport)
                 case None => ResponseText(parse, StreamSegments(ChunksOf(transport)))
                 case Some(message) => ERROR_PREFIX + message
  {
    var started := ms + [UserMessage(content, userClock), Placeholder(botClock)];
    ApplySegmentsAppends(started, Placeholder(botClock).id, parse, StreamSegments(ChunksOf(transport)));
    assert started[|ms| + 1] == Placeholder(botClock);
  }

  /** A failed request never streams: the placeholder shows the error. */
  lemma RequestFailureShown(ms: seq<Message>, content: string, userClock: string, botClock: string,
                            statusText: string, parse: string -> Parsed)
    ensures AfterSend(ms, content, userClock, botClock, NotOk(statusText), parse)[|ms| + 1].content
              == ERROR_PREFIX + REQUEST_FAILED + statusText
  {
    PlaceholderContent(ms, content, userClock, botClock, NotOk(statusText), parse);
  }

  /** The state of one `useChat` hook. */
  class ChatState {
    var messages: seq<Message>
    var isLoading: bool
    /** The message of the last error, `None` for `null`. */
    var error: Option<string>

    constructor ()
      ensures messages == [] && !isLoading && error == None
    {
      messages := [];
      isLoading := false;
      error := None;
    }

    /** `sendMessage`: blank content changes nothing; otherwise the list
        becomes `AfterSend`, the error is the one caught, if any, and
        loading has ended. */
    method SendMessage(content: string, userClock: string, botClock: string,
                       transport: Transport, parse: string -> Parsed)
      modifies this
      ensures Blank(content) ==> messages == old(messages) && isLoading == old(isLoading) && error == old(error)
      ensures !Blank(content) ==>
        messages == AfterSend(old(messages), content, userClock, botClock, transport, parse)
        && !isLoading && error == FailureOf(transport)
    {
      if Blank(content) {
        return;
      }
      isLoading := true;
      error := None;
      var placeholder := Placeholder(botClock);
      messages := messages + [UserMessage(content, userClock), placeholder];
      var caught: Option<string> := None;
      match transport {
        case FetchRejected(thrown) =>
          caught := Some(ThrownMessage(thrown));
        case NotOk(statusText) =>
          caught := Some(REQUEST_FAILED + statusText);
        case Streamed(chunks, readFailure) =>
          ReadStream(chunks, placeholder.id, parse);
          if readFailure.Some? {
            caught := Some(ThrownMessage(readFailure.value));
          }
      }
      if caught.Some? {
        error := caught;
        messages := SetContentOfId(messages, placeholder.id, ERROR_PREFIX + caught.value);
      }
      isLoading := false;
    }

    /** The `while (!done)` reader loop: every chunk's payloads in turn. */
    method ReadStream(chunks: seq<string>, id: string, parse: string -> Parsed)
      modifies this
      ensures messages == ApplySegments(old(messages), id, parse, StreamSegments(chunks))
      ensures isLoading == old(isLoading) && error == old(error)
    {
      ghost var start := messages;
      var i := 0;
      while i < |chunks|
        invariant 0 <= i <= |chunks|
        invariant messages == ApplySegments(start, id, parse, StreamSegments(chunks[..i]))
        invariant isLoading == old(isLoading) && error == old(error)
      {
        ghost var before := messages;
        ReadChunk(chunks[i], id, parse);
        ApplySegmentsConcat(start, id, parse, StreamSegments(chunks[..i]), Segments(chunks[i]));
        assert chunks[..i + 1][..i] == chunks[..i];
        i := i + 1;
      }
      assert chunks[..|chunks|] == chunks;
    }

    /** The `for (const line of lines)` loop over one chunk's payloads. */
    method ReadChunk(chunk: string, id: string, parse: string -> Parsed)
      modifies this
      ensures messages == ApplySegments(old(messages), id, parse, Segments(chunk))
      ensures isLoading == old(isLoading) && error == old(error)
    {
      var lines := Segments(chunk);
      for k := 0 to |lines|
        invariant messages == ApplySegments(old(messages), id, parse, lines[..k])
        invariant isLoading == old(isLoading) && error == old(error)
      {
        assert lines[..k + 1][..k] == lines[..k];
        match parse(lines[k]) {
          case Truthy(text) =>
            messages := AppendToId(messages, id, text);
          case _ =>
        }
      }
      assert lines[..|lines|] == lines;
    }
  }
}
