/** The streaming Goose client: the caller's options are laid over two
    defaults, the message is posted in a body built from the merged
    options, and the reply's body stream is read chunk by chunk, each
    decoded chunk handed to the callback, until the stream says it is done.
    The clock, the server's reply and the stream's reads are inputs; the
    calls issued and the chunks handed over are outputs. */
module GooseStream {
  import opened Wrappers
  import opened GooseProtocol

  type byte = bv8

  /** Option values as given: `None` is a key given the value `undefined`. */
  type Options = map<string, Option<string>>

  const Defaults: Options := map["sessionId" := Some("web-client-session"), "sessionWorkingDir" := Some("/tmp")]

  /** `{ ...defaults, ...options }`: every given option replaces the default
      of its own key only. */
  function MergeOptions(options: Options): (config: Options)
    ensures config.Keys == Defaults.Keys + options.Keys
    ensures forall k :: k in options ==> config[k] == options[k]
    ensures forall k :: k in Defaults && k !in options ==> config[k] == Defaults[k]
  {
    Defaults + options
  }

  /** `config.name`, `undefined` (`None`) when absent. */
  function Lookup(config: Options, name: string): Option<string> {
    if name in config then config[name] else None
  }

  /** The posted body: one user text block, with the session id and the
      working directory of the merged options. */
  function StreamBody(message: string, nowMs: nat, options: Options): RequestBody {
    var config := MergeOptions(options);
    RequestFor(message, nowMs, Lookup(config, "sessionWorkingDir"), Lookup(config, "sessionId"))
  }

  /** Without options the body names the default session and directory;
      an option given for one key changes that key only. */
  lemma StreamBodyOptions(message: string, nowMs: nat, options: Options)
    ensures CarriesText(StreamBody(message, nowMs, options), message)
    ensures StreamBody(message, nowMs, options).sessionId ==
      if "sessionId" in options then options["sessionId"] else Some("web-client-session")
    ensures StreamBody(message, nowMs, options).sessionWorkingDir ==
      if "sessionWorkingDir" in options then options["sessionWorkingDir"] else Some("/tmp")
  {
  }

  /** `sendGooseRequest`: one POST; a response that is not ok throws, any
      other is handed back as it came. */
  method SendGooseRequest(message: string, options: Options, nowMs: nat, post: Reply<seq<Read>>)
    returns (calls: seq<Call>, outcome: Outcome<Reply<seq<Read>>>)
    ensures calls == [Post(ReplyPath, StreamBody(message, nowMs, options))]
    ensures Checked(post).Threw? ==> outcome == Threw(Checked(post).message)
    ensures Checked(post).Returned? ==> outcome == Returned(post)
  {
    calls := [Post(ReplyPath, StreamBody(message, nowMs, options))];
    match Checked(post) {
      case Threw(m) => outcome := Threw(m);
      case Returned(_) => outcome := Returned(post);
    }
  }

  // ---------------------------------------------------------------- the read loop

  /** One `reader.read()`: a chunk of bytes, the end of the stream, or a
      failure that rejects the read. */
  datatype Read = Chunk(bytes: seq<byte>) | Done | Failed(reason: string)

  /** The chunks read before the first end or failure, in order. */
  function ChunksBeforeEnd(steps: seq<Read>): (r: seq<seq<byte>>)
    ensures |r| <= |steps|
  {
    if steps == [] || !steps[0].Chunk? then [] else [steps[0].bytes] + ChunksBeforeEnd(steps[1..])
  }

  /** The failure that stops the stream, if a failure comes before the end. */
  function StreamError(steps: seq<Read>): Option<string> {
    if steps == [] then None
    else match steps[0]
      case Chunk(_) => StreamError(steps[1..])
      case Done => None
      case Failed(reason) => Some(reason)
  }

  /** The text of each chunk. The decoder is stateful (a character split
      between two chunks comes out with the second), so the text of a
      chunk is a function `decode` of the chunks before it and the chunk. */
  function Decoded(chunks: seq<seq<byte>>, decode: (seq<seq<byte>>, seq<byte>) -> string): (r: seq<string>)
    ensures |r| == |chunks|
    ensures forall k :: 0 <= k < |r| ==> r[k] == decode(chunks[..k], chunks[k])
  {
    seq(|chunks|, k requires 0 <= k < |chunks| => decode(chunks[..k], chunks[k]))
  }

  /** Reads after the end of the stream are never looked at. */
  lemma {:induction false} NothingAfterDone(before: seq<Read>, after: seq<Read>)
    ensures ChunksBeforeEnd(before + [Done] + after) == ChunksBeforeEnd(before)
    ensures StreamError(before + [Done] + after) == StreamError(before)
  {
    if before != [] {
      assert (before + [Done] + after)[1..] == before[1..] + [Done] + after;
      NothingAfterDone(before[1..], after);
    } else {
      assert before + [Done] + after == [Done] + after;
    }
  }

  /** A stream of chunks only hands over every chunk and reports no error. */
  lemma {:induction false} AllChunksDelivered(steps: seq<Read>)
    requires forall k :: 0 <= k < |steps| ==> steps[k].Chunk?
    ensures |ChunksBeforeEnd(steps)| == |steps|
    ensures forall k :: 0 <= k < |steps| ==> ChunksBeforeEnd(steps)[k] == steps[k].bytes
    ensures StreamError(steps) == None
  {
    if steps != [] {
      AllChunksDelivered(steps[1..]);
    }
  }

  /** One step of the loop: a chunk read at `i` joins the chunks seen. */
  lemma ChunkStep(steps: seq<Read>, i: nat)
    requires i < |steps| && steps[i].Chunk?
    ensures ChunksBeforeEnd(steps[i..]) == [steps[i].bytes] + ChunksBeforeEnd(steps[i + 1..])
    ensures StreamError(steps[i..]) == StreamError(steps[i + 1..])
  {
    assert steps[i..][1..] == steps[i + 1..];
  }

  /** `processStreamingResponse`: reads until the stream is done, handing
      the decoded text of each chunk, in read order, to the callback when
      there is one (`hasCallback`); a failed read ends the loop and is
      passed on to the caller. */
  method ProcessStreamingResponse(steps: seq<Read>, decode: (seq<seq<byte>>, seq<byte>) -> string, hasCallback: bool)
    returns (delivered: seq<string>, error: Option<string>)
    ensures hasCallback ==> delivered == Decoded(ChunksBeforeEnd(steps), decode)
    ensures !hasCallback ==> delivered == []
    ensures error == StreamError(steps)
  {
    var seen: seq<seq<byte>> := [];
    delivered := [];
    error := None;
    var i := 0;
    while i < |steps|
      invariant 0 <= i <= |steps|
      invariant ChunksBeforeEnd(steps) == seen + ChunksBeforeEnd(steps[i..])
      invariant StreamError(steps) == StreamError(steps[i..])
      invariant delivered == if hasCallback then Decoded(seen, decode) else []
    {
      match steps[i] {
        case Done =>
          break;
        case Failed(reason) =>
          error := Some(reason);
          break;
        case Chunk(value) =>
          var chunk := decode(seen, value);
          if hasCallback {
            DecodedStep(seen, value, decode);
            delivered := delivered + [chunk];
          }
          ChunkStep(steps, i);
          seen := seen + [value];
          i := i + 1;
      }
    }
    assert ChunksBeforeEnd(steps[i..]) == [];
    assert seen + [] == seen;
  }

  /** The texts of one more chunk are the texts so far and its own. */
  lemma DecodedStep(chunks: seq<seq<byte>>, value: seq<byte>, decode: (seq<seq<byte>>, seq<byte>) -> string)
    ensures Decoded(chunks + [value], decode) == Decoded(chunks, decode) + [decode(chunks, value)]
  {
    var s := chunks + [value];
    assert s[..|chunks|] == chunks;
    assert forall k :: 0 <= k < |chunks| ==> s[..k] == chunks[..k];
  }
}
