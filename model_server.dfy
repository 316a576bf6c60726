/**
 * The local model server: the API-key check in front of both endpoints, the server-sent-event
 * framing of a streamed completion, and the reply of the non-streaming endpoint built from a
 * chat-completion response.
 *
 * The model is abstracted: a streamed completion is the sequence of chunks it yields and,
 * possibly, the exception it raises after them; a plain completion is the response value or the
 * exception. A frame is an abstract value (`Content`, `Done`, `Error`) standing for the
 * `data: ...` line `json.dumps` would produce. The clock reading is the parameter `millis`.
 */
module ModelServer {
  import opened Wrappers
  import opened Text

  /** A Python string is truthy when it is non-empty; a missing value is falsy. */
  predicate Truthy(o: Option<string>) {
    o.Some? && o.value != ""
  }

  // ---------------------------------------------------------------------------------------------
  // check_api_key

  /** The check either lets the request through or raises an HTTP error. */
  datatype Check = Pass | Reject(status: int, detail: string)

  /** The key the request presents: the `x-api-key` header when it is non-empty, else the `api_key` query parameter. */
  function PresentedKey(header: Option<string>, query: Option<string>): (k: Option<string>)
    ensures Truthy(header) ==> k == header
    ensures !Truthy(header) ==> k == query
  {
    if Truthy(header) then header else query
  }

  /** `check_api_key`: with a configured key, the presented key must equal it, otherwise 401. */
  function CheckApiKey(apiKey: Option<string>, header: Option<string>, query: Option<string>): (r: Check)
    ensures !Truthy(apiKey) ==> r == Pass
    ensures Truthy(apiKey) ==> (r == Pass <==> PresentedKey(header, query) == apiKey)
    ensures r.Reject? ==> r == Reject(401, "Invalid API key")
  {
    if Truthy(apiKey) then
      var key := PresentedKey(header, query);
      if key != apiKey then Reject(401, "Invalid API key") else Pass
    else Pass
  }

  /** A non-empty header decides alone: the query parameter is not looked at. */
  lemma HeaderTakesPrecedence(apiKey: Option<string>, header: Option<string>, q1: Option<string>, q2: Option<string>)
    requires Truthy(header)
    ensures CheckApiKey(apiKey, header, q1) == CheckApiKey(apiKey, header, q2)
  {
  }

  /** A wrong header is rejected even when the query parameter holds the right key. */
  lemma WrongHeaderRejected(apiKey: string, header: string)
    requires apiKey != "" && header != "" && header != apiKey
    ensures CheckApiKey(Some(apiKey), Some(header), Some(apiKey)).Reject?
  {
  }

  /** With a key configured, a request that presents nothing is rejected. */
  lemma NoKeyPresentedRejected(apiKey: string)
    requires apiKey != ""
    ensures CheckApiKey(Some(apiKey), None, None) == Reject(401, "Invalid API key")
    ensures CheckApiKey(Some(apiKey), Some(""), None) == Reject(401, "Invalid API key")
  {
  }

  // ---------------------------------------------------------------------------------------------
  // generate_stream

  /** The `delta` of a streamed choice; `content` is `None` when the key is absent. */
  datatype Delta = Delta(content: Option<string>)

  /** `chunk["choices"][0]`: a dict whose `delta` may be missing (read as `{}`), or a value of another type. */
  datatype StreamChoice = DeltaChoice(delta: Option<Delta>) | NotADict(typeName: string)

  /** A chunk: one with a `choices` list, or anything else (not a dict, or no `choices` key). */
  datatype Chunk = WithChoices(choices: seq<StreamChoice>) | OtherChunk

  /** What the completion does: yields these chunks, then stops or raises with this message. */
  datatype Upstream = Upstream(chunks: seq<Chunk>, failure: Option<string>)

  /** One line of the event stream. */
  datatype Frame = Content(text: string) | Done | Error(message: string)

  /** What the loop body does with one chunk. */
  datatype Step = Emit(text: string) | Skip | Raise(message: string)

  /** The message `str(e)` of an `AttributeError` from calling `.get` on a value of this type. */
  function NoGet(typeName: string): string {
    "'" + typeName + "' object has no attribute 'get'"
  }

  /**
   * One chunk: from the first choice's `delta`, a frame when it has `content`; nothing for a
   * chunk without `choices` or a delta without `content`; an `IndexError` for an empty choice
   * list and an `AttributeError` for a first choice that is not a dict.
   */
  function StepOf(chunk: Chunk): (s: Step)
    ensures chunk.OtherChunk? ==> s == Skip
    ensures s.Emit? <==> (chunk.WithChoices? && |chunk.choices| > 0 && chunk.choices[0].DeltaChoice?
      && chunk.choices[0].delta.GetOr(Delta(None)).content.Some?)
    ensures s.Emit? ==> s.text == chunk.choices[0].delta.GetOr(Delta(None)).content.value
    ensures s.Raise? <==> chunk.WithChoices? && (|chunk.choices| == 0 || chunk.choices[0].NotADict?)
    ensures s.Raise? && |chunk.choices| == 0 ==> s.message == "list index out of range"
    ensures s.Raise? && |chunk.choices| > 0 ==> s.message == NoGet(chunk.choices[0].typeName)
  {
    match chunk
    case OtherChunk => Skip
    case WithChoices(choices) =>
      if |choices| == 0 then Raise("list index out of range")
      else
        match choices[0]
        case NotADict(t) => Raise(NoGet(t))
        case DeltaChoice(delta) =>
          var d := delta.GetOr(Delta(None));
          if d.content.Some? then Emit(d.content.value) else Skip
  }

  /** The frames `generate_stream` yields for these chunks and this ending. */
  function Frames(chunks: seq<Chunk>, failure: Option<string>): seq<Frame>
    decreases |chunks|
  {
    if chunks == [] then
      if failure.Some? then [Error(failure.value)] else [Done]
    else
      match StepOf(chunks[0])
      case Emit(t) => [Content(t)] + Frames(chunks[1..], failure)
      case Skip => Frames(chunks[1..], failure)
      case Raise(m) => [Error(m)]
  }

  /** `generate_stream`: the `for` loop over the chunks, then `[DONE]`; an exception ends the stream with its error frame. */
  method GenerateStream(up: Upstream) returns (frames: seq<Frame>)
    ensures frames == Frames(up.chunks, up.failure)
  {
    frames := [];
    var i := 0;
    while i < |up.chunks|
      invariant 0 <= i <= |up.chunks|
      invariant frames + Frames(up.chunks[i..], up.failure) == Frames(up.chunks, up.failure)
    {
      var chunk := up.chunks[i];
      var step := StepOf(chunk);
      assert up.chunks[i..][1..] == up.chunks[i + 1..];
      match step {
        case Emit(t) =>
          frames := frames + [Content(t)];
        case Skip =>
        case Raise(m) =>
          frames := frames + [Error(m)];
          return;
      }
      i := i + 1;
    }
    if up.failure.Some? {
      frames := frames + [Error(up.failure.value)];
    } else {
      frames := frames + [Done];
    }
  }

  /** A frame that ends the stream. */
  predicate Terminal(f: Frame) {
    f.Done? || f.Error?
  }

  /** Every stream ends with exactly one closing frame, `[DONE]` or an error, and has content frames before it. */
  lemma {:induction false} OneClosingFrame(chunks: seq<Chunk>, failure: Option<string>)
    ensures var fs := Frames(chunks, failure);
      |fs| >= 1 && Terminal(fs[|fs| - 1]) && forall j | 0 <= j < |fs| - 1 :: fs[j].Content?
    decreases |chunks|
  {
    if chunks != [] {
      OneClosingFrame(chunks[1..], failure);
    }
  }

  /** Some chunk makes the loop raise. */
  predicate SomeChunkRaises(chunks: seq<Chunk>) {
    exists j | 0 <= j < |chunks| :: StepOf(chunks[j]).Raise?
  }

  /** The texts of the chunks that carry content, in order. */
  function Emitted(chunks: seq<Chunk>): seq<string>
    decreases |chunks|
  {
    if chunks == [] then []
    else
      var rest := Emitted(chunks[1..]);
      match StepOf(chunks[0])
      case Emit(t) => [t] + rest
      case _ => rest
  }

  /** The content frames of a list of texts. */
  function ContentFrames(ts: seq<string>): (fs: seq<Frame>)
    ensures |fs| == |ts| && forall j | 0 <= j < |ts| :: fs[j] == Content(ts[j])
  {
    seq(|ts|, j requires 0 <= j < |ts| => Content(ts[j]))
  }

  /**
   * When no chunk raises, the stream is one content frame per content-bearing chunk, in order,
   * then `[DONE]` if the completion finished and its error frame if it raised.
   */
  lemma {:induction false} StreamWithoutBadChunk(chunks: seq<Chunk>, failure: Option<string>)
    requires !SomeChunkRaises(chunks)
    ensures Frames(chunks, failure) ==
      ContentFrames(Emitted(chunks)) + (if failure.Some? then [Error(failure.value)] else [Done])
    decreases |chunks|
  {
    if chunks != [] {
      assert forall j | 0 <= j < |chunks[1..]| :: chunks[1..][j] == chunks[j + 1];
      assert !StepOf(chunks[0]).Raise?;
      StreamWithoutBadChunk(chunks[1..], failure);
      var tail := if failure.Some? then [Error(failure.value)] else [Done];
      if StepOf(chunks[0]).Emit? {
        var t := StepOf(chunks[0]).text;
        assert ContentFrames([t] + Emitted(chunks[1..])) == [Content(t)] + ContentFrames(Emitted(chunks[1..]));
      }
    }
  }

  /** `[DONE]` closes the stream exactly when the completion finished and no chunk raised. */
  lemma {:induction false} DoneIff(chunks: seq<Chunk>, failure: Option<string>)
    ensures var fs := Frames(chunks, failure);
      |fs| >= 1 && (fs[|fs| - 1] == Done <==> failure.None? && !SomeChunkRaises(chunks))
    decreases |chunks|
  {
    OneClosingFrame(chunks, failure);
    if chunks != [] {
      DoneIff(chunks[1..], failure);
      if SomeChunkRaises(chunks) && !StepOf(chunks[0]).Raise? {
        var j :| 0 <= j < |chunks| && StepOf(chunks[j]).Raise?;
        assert chunks[1..][j - 1] == chunks[j];
      }
      if SomeChunkRaises(chunks[1..]) {
        var j :| 0 <= j < |chunks[1..]| && StepOf(chunks[1..][j]).Raise?;
        assert chunks[j + 1] == chunks[1..][j];
      }
    }
  }

  /** A chunk that yields nothing can be dropped anywhere without changing the stream. */
  lemma {:induction false} SkippedChunkInvisible(before: seq<Chunk>, c: Chunk, after: seq<Chunk>, failure: Option<string>)
    requires StepOf(c) == Skip
    ensures Frames(before + [c] + after, failure) == Frames(before + after, failure)
    decreases |before|
  {
    if before == [] {
      assert ([c] + after)[1..] == after;
      assert before + [c] + after == [c] + after;
      assert before + after == after;
    } else {
      SkippedChunkInvisible(before[1..], c, after, failure);
      assert (before + [c] + after)[1..] == before[1..] + [c] + after;
      assert (before + after)[1..] == before[1..] + after;
    }
  }

  // ---------------------------------------------------------------------------------------------
  // chat

  /** `ch.get("message")` or `ch.get("delta")`: falsy (missing, `None`, `{}`), a non-empty dict, or another truthy value. */
  datatype Message = Falsy | DictMessage(content: Option<string>) | OtherTruthy

  /** An element of `choices`: a dict with its two entries, or a value of another type. */
  datatype ChatChoice = ChoiceDict(message: Message, delta: Message) | ChoiceOther(typeName: string)

  /** `resp.get("choices", [])`: a list, or something else (missing, `None`, a dict, ...). */
  datatype Choices = ChoiceList(items: seq<ChatChoice>) | NotAList

  /** The completion's response: a dict with the entries read, or any other value with its `str`. */
  datatype Response = DictResponse(choices: Choices, text: Option<string>, output: Option<string>) | OtherResponse(str: string)

  /** The completion call: the response, or the exception it raised. */
  datatype Completion = Returned(resp: Response) | Raised(message: string)

  /** One choice of the reply. */
  datatype ReplyChoice = ReplyChoice(role: string, content: string)

  /** The endpoint's answer: the reply object, or the HTTP error it raises. */
  datatype ChatResult = Reply(id: string, choices: seq<ReplyChoice>) | HttpError(status: int, detail: string)

  /** `msg.get("content") if isinstance(msg, dict) else None`, for the first truthy of message and delta. */
  function ChoiceText(message: Message, delta: Message): Option<string> {
    var msg := if !message.Falsy? then message else delta;
    if msg.DictMessage? then msg.content else None
  }

  /** The truthy texts of the choices, in order, or the type of the first choice that is not a dict. */
  function Parts(cs: seq<ChatChoice>): (r: Result)
    decreases |cs|
  {
    if cs == [] then Ok([])
    else
      match cs[0]
      case ChoiceOther(t) => Failed(t)
      case ChoiceDict(m, d) =>
        var t := ChoiceText(m, d);
        match Parts(cs[1..])
        case Failed(u) => Failed(u)
        case Ok(rest) => Ok(if Truthy(t) then [t.value] + rest else rest)
  }

  datatype Result = Ok(parts: seq<string>) | Failed(typeName: string)

  /** The number a string of decimal digits denotes, most significant digit first. */
  function DigitsValue(s: string): int
    decreases |s|
  {
    if s == [] then 0 else DigitsValue(s[..|s| - 1]) * 10 + (s[|s| - 1] as int - '0' as int)
  }

  /** The decimal digits of `n`, as `f"{n}"` prints them. */
  function Decimal(n: nat): (s: string)
    ensures |s| >= 1 && forall j | 0 <= j < |s| :: '0' <= s[j] <= '9'
    ensures DigitsValue(s) == n
    ensures (s[0] == '0') <==> n == 0
    ensures n < 10 ==> |s| == 1
  {
    if n < 10 then [(48 + n) as char]
    else
      var d := Decimal(n / 10);
      var s := d + [(48 + n % 10) as char];
      assert s[..|s| - 1] == d;
      s
  }

  /** The reply for this content made at `millis` milliseconds. */
  function ReplyOf(content: string, millis: nat): ChatResult {
    Reply("local-" + Decimal(millis), [ReplyChoice("assistant", content)])
  }

  /** The answer `chat` gives for the completion: the reply, or the 500 error. */
  function ChatAnswer(c: Completion, millis: nat): ChatResult {
    match c
    case Raised(m) => HttpError(500, "Model error: " + m)
    case Returned(OtherResponse(str)) => ReplyOf(str, millis)
    case Returned(DictResponse(choices, text, output)) =>
      if choices.NotAList? || choices.items == [] then ReplyOf("", millis)
      else
        match Parts(choices.items)
        case Failed(t) => HttpError(500, "Model error: " + NoGet(t))
        case Ok(parts) =>
          if parts != [] then ReplyOf(Join(parts, ""), millis)
          else ReplyOf(if Truthy(text) then text.value else if Truthy(output) then output.value else "", millis)
  }

  /**
   * `chat`: the loop over `choices` collects the truthy texts and joins them; with none, the
   * response's `text` or `output`; a response that is not a dict gives its `str`. Exceptions
   * of the completion and of the loop become a 500 error.
   */
  method Chat(c: Completion, millis: nat) returns (r: ChatResult)
    ensures r == ChatAnswer(c, millis)
  {
    if c.Raised? {
      return HttpError(500, "Model error: " + c.message);
    }
    var content := "";
    match c.resp {
      case OtherResponse(str) =>
        content := str;
      case DictResponse(choices, text, output) =>
        if choices.ChoiceList? && choices.items != [] {
          var cs := choices.items;
          var parts: seq<string> := [];
          var i := 0;
          while i < |cs|
            invariant 0 <= i <= |cs|
            invariant Parts(cs) == match Parts(cs[i..]) case Failed(t) => Failed(t) case Ok(rest) => Ok(parts + rest)
          {
            assert cs[i..][1..] == cs[i + 1..];
            assert cs[i..][0] == cs[i];
            match cs[i] {
              case ChoiceOther(t) =>
                return HttpError(500, "Model error: " + NoGet(t));
              case ChoiceDict(m, d) =>
                var t := ChoiceText(m, d);
                if Truthy(t) {
                  parts := parts + [t.value];
                  assert forall rest: seq<string> :: parts + rest == parts[..|parts| - 1] + ([t.value] + rest);
                }
            }
            i := i + 1;
          }
          assert cs[i..] == [];
          assert parts + [] == parts;
          assert Parts(cs) == Ok(parts);
          if parts != [] {
            content := Join(parts, "");
          } else {
            content := if Truthy(text) then text.value else if Truthy(output) then output.value else "";
          }
        }
    }
    r := ReplyOf(content, millis);
  }

  /** The reply has exactly one choice, from the assistant; its id is `local-` and the time in milliseconds. */
  lemma ReplyShape(c: Completion, millis: nat)
    requires c.Returned?
    ensures var r := ChatAnswer(c, millis);
      r.Reply? ==> |r.choices| == 1 && r.choices[0].role == "assistant" && r.id == "local-" + Decimal(millis)
  {
  }

  /** The parts are non-empty, every truthy text of a choice is one of them, and there are none exactly when no choice has one. */
  lemma {:induction false} PartsAreTruthyTexts(cs: seq<ChatChoice>)
    requires Parts(cs).Ok?
    ensures forall j | 0 <= j < |Parts(cs).parts| :: Parts(cs).parts[j] != ""
    ensures forall j | 0 <= j < |cs| && cs[j].ChoiceDict? && Truthy(ChoiceText(cs[j].message, cs[j].delta)) ::
      ChoiceText(cs[j].message, cs[j].delta).value in Parts(cs).parts
    ensures |Parts(cs).parts| == 0 <==> forall j | 0 <= j < |cs| && cs[j].ChoiceDict? :: !Truthy(ChoiceText(cs[j].message, cs[j].delta))
    decreases |cs|
  {
    if cs != [] {
      PartsAreTruthyTexts(cs[1..]);
      assert forall j | 1 <= j < |cs| :: cs[j] == cs[1..][j - 1];
    }
  }

  /** A choice that is not a dict anywhere in the list makes `chat` answer 500. */
  lemma {:induction false} NonDictChoiceFails(cs: seq<ChatChoice>, j: nat)
    requires j < |cs| && cs[j].ChoiceOther?
    ensures Parts(cs).Failed?
    decreases |cs|
  {
    if j > 0 && cs[0].ChoiceDict? {
      NonDictChoiceFails(cs[1..], j - 1);
    }
  }

  /**
   * The fallback to `text` and `output` applies only to a non-empty choice list without any
   * text: with no choices the content is empty even when `text` is set.
   */
  lemma FallbackNeedsChoices(text: string, output: Option<string>, millis: nat)
    ensures ChatAnswer(Returned(DictResponse(NotAList, Some(text), output)), millis) == ReplyOf("", millis)
    ensures ChatAnswer(Returned(DictResponse(ChoiceList([]), Some(text), output)), millis) == ReplyOf("", millis)
    ensures text != "" ==>
      ChatAnswer(Returned(DictResponse(ChoiceList([ChoiceDict(Falsy, Falsy)]), Some(text), output)), millis) == ReplyOf(text, millis)
  {
    if text != "" {
      assert Parts([ChoiceDict(Falsy, Falsy)]) == Ok([]);
    }
  }

  /** An empty `message` (`{}`) is passed over for the delta, but a non-empty one without content is not. */
  lemma MessageBeforeDelta(content: string)
    ensures ChoiceText(Falsy, DictMessage(Some(content))) == Some(content)
    ensures ChoiceText(DictMessage(None), DictMessage(Some(content))) == None
  {
  }
}
