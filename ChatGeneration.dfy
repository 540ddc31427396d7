/**
  How `chatWithContext` turns the provider's reply into the answer: the
  first choice's content (or "") without streaming, and with streaming the
  non-empty deltas concatenated in arrival order, each forwarded to the
  optional `onToken` sink. The retrieval results, the provider's reply and
  its stream events are inputs.
*/
module ChatGeneration {
  import opened Wrappers
  import opened JsStrings
  import opened ChatPrompt

  /** The parts of a non-streaming completion the service reads; each may be missing. */
  datatype ReplyMessage = ReplyMessage(content: Option<string>)
  datatype Choice = Choice(message: Option<ReplyMessage>)
  datatype Completion = Completion(choices: Option<seq<Choice>>)

  /** `resp.choices?.[0]?.message?.content || ""` */
  function AnswerText(resp: Completion): (answer: string)
    ensures answer != "" <==>
              resp.choices.Some? && |resp.choices.value| > 0 && resp.choices.value[0].message.Some?
              && resp.choices.value[0].message.value.content.Some?
              && resp.choices.value[0].message.value.content.value != ""
    ensures answer != "" ==> resp.choices.value[0].message.value.content == Some(answer)
  {
    match resp.choices
    case None => ""
    case Some(choices) =>
      if |choices| == 0 then ""
      else
        match choices[0].message
        case None => ""
        case Some(m) => m.content.GetOr("")
  }

  /** The parts of a stream event the service reads; each may be missing. */
  datatype Delta = Delta(content: Option<string>)
  datatype StreamChoice = StreamChoice(delta: Option<Delta>)
  datatype StreamEvent = StreamEvent(choices: Option<seq<StreamChoice>>)

  /** `chunk?.choices?.[0]?.delta?.content || ""`; a `None` event is a null chunk. */
  function DeltaText(event: Option<StreamEvent>): (t: string)
    ensures t != "" ==> event.Some? && event.value.choices.Some? && |event.value.choices.value| > 0
                        && event.value.choices.value[0].delta.Some?
                        && event.value.choices.value[0].delta.value.content == Some(t)
    ensures event.Some? && event.value.choices.Some? && |event.value.choices.value| > 0
            && event.value.choices.value[0].delta.Some? && event.value.choices.value[0].delta.value.content.Some?
            ==> t == event.value.choices.value[0].delta.value.content.value
  {
    if event.None? || event.value.choices.None? || |event.value.choices.value| == 0 then ""
    else
      match event.value.choices.value[0].delta
      case None => ""
      case Some(d) => d.content.GetOr("")
  }

  /** The tokens the stream yields: the non-empty deltas, in arrival order. */
  function Tokens(events: seq<Option<StreamEvent>>): (toks: seq<string>)
    ensures |toks| <= |events|
  {
    if events == [] then []
    else
      var t := DeltaText(events[|events| - 1]);
      Tokens(events[..|events| - 1]) + (if t != "" then [t] else [])
  }

  /** No event of the stream carries text. */
  predicate Silent(events: seq<Option<StreamEvent>>) {
    forall i :: 0 <= i < |events| ==> DeltaText(events[i]) == ""
  }

  /** The streamed answer: every token, concatenated. It is empty exactly when no event carried text. */
  function StreamedText(events: seq<Option<StreamEvent>>): (full: string)
    ensures full == "" <==> Silent(events)
  {
    TokensTextEmpty(events);
    Concat(Tokens(events))
  }

  lemma {:induction false} TokensTextEmpty(events: seq<Option<StreamEvent>>)
    ensures Concat(Tokens(events)) == "" <==> Silent(events)
    decreases |events|
  {
    if events != [] {
      var init := events[..|events| - 1];
      var last := events[|events| - 1];
      assert init + [last] == events;
      TokensTextEmpty(init);
      ConcatTokensSnoc(init, last);
      SilentSnoc(init, last);
      EmptyConcatenation(Concat(Tokens(init)), DeltaText(last));
    }
  }

  lemma EmptyConcatenation(a: string, b: string)
    ensures a + b == "" <==> a == "" && b == ""
  {
    assert |a + b| == |a| + |b|;
  }

  /** One more event adds its delta text to the end of the concatenated tokens. */
  lemma ConcatTokensSnoc(init: seq<Option<StreamEvent>>, last: Option<StreamEvent>)
    ensures Concat(Tokens(init + [last])) == Concat(Tokens(init)) + DeltaText(last)
  {
    var events := init + [last];
    assert events[..|events| - 1] == init && events[|events| - 1] == last;
    var t := DeltaText(last);
    if t != "" {
      var toks := Tokens(init) + [t];
      assert Tokens(events) == toks;
      assert toks[..|toks| - 1] == Tokens(init);
    } else {
      assert Tokens(events) == Tokens(init);
      assert Concat(Tokens(init)) + t == Concat(Tokens(init));
    }
  }

  lemma SilentSnoc(init: seq<Option<StreamEvent>>, last: Option<StreamEvent>)
    ensures Silent(init + [last]) <==> Silent(init) && DeltaText(last) == ""
  {
    var events := init + [last];
    if Silent(events) {
      forall i | 0 <= i < |init|
        ensures DeltaText(init[i]) == ""
      {
        assert init[i] == events[i];
      }
      assert events[|init|] == last;
    }
    if Silent(init) && DeltaText(last) == "" {
      forall i | 0 <= i < |events|
        ensures DeltaText(events[i]) == ""
      {
        if i < |init| {
          assert events[i] == init[i];
        }
      }
    }
  }

  /** No token is empty, and every token is the text of some event. */
  lemma {:induction false} TokensAreDeltas(events: seq<Option<StreamEvent>>)
    ensures forall t :: t in Tokens(events) ==> t != "" && exists i :: 0 <= i < |events| && DeltaText(events[i]) == t
    decreases |events|
  {
    if events != [] {
      var init := events[..|events| - 1];
      TokensAreDeltas(init);
      forall t | t in Tokens(events)
        ensures t != "" && exists i :: 0 <= i < |events| && DeltaText(events[i]) == t
      {
        if t in Tokens(init) {
          var i :| 0 <= i < |init| && DeltaText(init[i]) == t;
          assert events[i] == init[i];
        } else {
          assert DeltaText(events[|events| - 1]) == t;
        }
      }
    }
  }

  /** When every event carries text, each event yields exactly one token, in arrival order. */
  lemma {:induction false} TokensOfTextEvents(events: seq<Option<StreamEvent>>)
    requires forall i :: 0 <= i < |events| ==> DeltaText(events[i]) != ""
    ensures |Tokens(events)| == |events|
    ensures forall i :: 0 <= i < |events| ==> Tokens(events)[i] == DeltaText(events[i])
    decreases |events|
  {
    if events != [] {
      var init := events[..|events| - 1];
      assert forall i :: 0 <= i < |init| ==> init[i] == events[i];
      TokensOfTextEvents(init);
      var t := DeltaText(events[|events| - 1]);
      assert Tokens(events) == Tokens(init) + [t];
    }
  }

  /** The stream is consumed piece by piece: tokens of a longer stream extend those of its prefix. */
  lemma {:induction false} TokensAppend(a: seq<Option<StreamEvent>>, b: seq<Option<StreamEvent>>)
    ensures Tokens(a + b) == Tokens(a) + Tokens(b)
    decreases |b|
  {
    if b == [] {
      assert a + b == a;
    } else {
      var init := b[..|b| - 1];
      assert (a + b)[..|a + b| - 1] == a + init;
      TokensAppend(a, init);
    }
  }

  /** The answer of two stream segments is their answers concatenated; an event without text adds nothing. */
  lemma StreamedTextAppend(a: seq<Option<StreamEvent>>, b: seq<Option<StreamEvent>>)
    ensures StreamedText(a + b) == StreamedText(a) + StreamedText(b)
    ensures |b| == 1 && DeltaText(b[0]) == "" ==> StreamedText(a + b) == StreamedText(a)
  {
    TokensAppend(a, b);
    ConcatAppend(Tokens(a), Tokens(b));
    if |b| == 1 && DeltaText(b[0]) == "" {
      assert b[..0] == [];
      assert Tokens(b) == [];
    }
  }

  /** One event of the loop: a non-empty delta is the next token and extends the text by itself. */
  lemma TokensStep(events: seq<Option<StreamEvent>>, i: nat, delivered: seq<string>, full: string)
    requires i < |events| && delivered == Tokens(events[..i]) && full == Concat(delivered)
    ensures var t := DeltaText(events[i]);
            Tokens(events[..i + 1]) == if t != "" then delivered + [t] else delivered
    ensures DeltaText(events[i]) != "" ==> Concat(delivered + [DeltaText(events[i])]) == full + DeltaText(events[i])
  {
    assert events[..i + 1][..i] == events[..i];
    assert (delivered + [DeltaText(events[i])])[..|delivered|] == delivered;
  }

  /** The `onToken` callback: records every token it is handed, in order. */
  class TokenSink {
    var received: seq<string>

    constructor()
      ensures received == []
    {
      received := [];
    }

    method OnToken(token: string)
      modifies this
      ensures received == old(received) + [token]
    {
      received := received + [token];
    }
  }

  /**
    The `for await` loop: `full` grows by each non-empty delta, and each one
    is handed to `onToken` when there is a sink. With or without a sink the
    returned text is the same.
  */
  method AccumulateStream(events: seq<Option<StreamEvent>>, onToken: TokenSink?) returns (full: string)
    modifies onToken
    ensures full == StreamedText(events)
    ensures onToken != null ==> onToken.received == old(onToken.received) + Tokens(events)
  {
    full := "";
    ghost var delivered: seq<string> := [];
    for i := 0 to |events|
      invariant delivered == Tokens(events[..i])
      invariant full == Concat(delivered)
      invariant onToken != null ==> onToken.received == old(onToken.received) + delivered
    {
      var delta := DeltaText(events[i]);
      TokensStep(events, i, delivered, full);
      if delta != "" {
        full := full + delta;
        delivered := delivered + [delta];
        if onToken != null {
          onToken.OnToken(delta);
        }
      }
    }
    assert events[..|events|] == events;
  }

  /**
    `chatWithContext(userQuery, options)` after retrieval: builds the request
    from the chunks and the resolved options, then answers from the
    completion, or from the stream events when streaming. `chunks` is what the
    retriever returned; `completion` and `events` are the provider's replies.
  */
  method ChatWithContext(userQuery: string, options: ChatOptions, onToken: TokenSink?,
                         chunks: seq<Chunk>, completion: Completion, events: seq<Option<StreamEvent>>)
    returns (request: CompletionRequest, answer: string)
    modifies onToken
    ensures request == RequestFor(userQuery, chunks, ResolveOptions(options))
    ensures !request.stream ==> answer == AnswerText(completion)
    ensures !request.stream && onToken != null ==> onToken.received == old(onToken.received)
    ensures request.stream ==> answer == StreamedText(events)
    ensures request.stream && onToken != null ==> onToken.received == old(onToken.received) + Tokens(events)
  {
    var settings := ResolveOptions(options);
    request := RequestFor(userQuery, chunks, settings);
    if !settings.stream {
      answer := AnswerText(completion);
    } else {
      answer := AccumulateStream(events, onToken);
    }
  }
}
