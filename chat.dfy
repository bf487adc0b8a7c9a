/**
 * The interactive chat command: a session that reads one line per turn,
 * exits on the exact line "quit\n", and otherwise appends the user's line
 * to the conversation, sends the whole conversation as one request,
 * reduces the streamed answer and appends it as the assistant's message.
 */
module Chat {
  import opened Wrappers
  import opened Messages
  import opened Stream

  /** The exit token, compared with the raw line including its newline. */
  const QuitToken := "quit\n"

  /** What the streaming call gives back: a failure, or the events and whether the stream reported an error. */
  datatype StreamResponse = InvokeFailed | Streamed(events: seq<Event>, failed: bool)

  /** How one turn ends. */
  datatype TurnOutcome = Quit | Fatal(error: Error) | Replied(reply: string, printed: seq<Printed>)

  /** The inputs of one turn: what successive line reads return, and the service's answer. */
  datatype TurnScript = TurnScript(lines: seq<string>, response: StreamResponse)

  /** One completed turn: the user's line and the assistant's reply. */
  datatype Exchange = Exchange(prompt: string, reply: string)

  /**
   * How a session ends: the exit token (status 0), a fatal error, or
   * waiting for a line that never comes.
   */
  datatype SessionEnd = Exited | Failed(error: Error) | AwaitingInput

  /** What one pass of the loop body leads to: the next turn after a completed exchange, or the end. */
  datatype Step = Continue(exchange: Exchange) | Stop(end: SessionEnd)

  /** The first non-empty line among successive lines. */
  function FirstLine(lines: seq<string>): (line: Option<string>)
    ensures line.None? <==> forall j :: 0 <= j < |lines| ==> lines[j] == ""
    ensures line.Some? ==> line.value != ""
  {
    if lines == [] then None
    else if lines[0] != "" then Some(lines[0])
    else FirstLine(lines[1..])
  }

  /** A non-empty read preceded only by empty reads is the line returned. */
  lemma {:induction false} FirstLineAt(lines: seq<string>, k: nat)
    requires k < |lines| && lines[k] != ""
    requires forall j :: 0 <= j < k ==> lines[j] == ""
    ensures FirstLine(lines) == Some(lines[k])
    decreases k
  {
    if k > 0 {
      FirstLineAt(lines[1..], k - 1);
    }
  }

  /**
   * The line reader: it reads again while a read returns the empty string
   * and returns the first non-empty result unchanged, trailing newline
   * included. When the reads run out it has found nothing (the program
   * would go on reading).
   */
  method StringPrompt(lines: seq<string>) returns (line: Option<string>, used: nat)
    ensures line == FirstLine(lines)
    ensures used <= |lines|
    ensures line.Some? ==> 0 < used && lines[used - 1] == line.value
    ensures line.None? ==> used == |lines|
    ensures forall j :: 0 <= j < used - 1 ==> lines[j] == ""
  {
    used := 0;
    while used < |lines|
      invariant used <= |lines|
      invariant forall j :: 0 <= j < used ==> lines[j] == ""
    {
      var s := lines[used];
      used := used + 1;
      if s != "" {
        FirstLineAt(lines, used - 1);
        return Some(s), used;
      }
    }
    line := None;
  }

  /** The request of a turn: the history so far followed by the user's line. */
  function NextRequest(history: seq<Message>, params: Params, input: string): (body: RequestBody)
    ensures |body.messages| == |history| + 1
    ensures body.messages[..|history|] == history
    ensures body.messages[|history|].role == UserRole
    ensures body.messages[|history|].content == [ContentBlock(TextType, input)]
    ensures ParamsOf(body) == params && body.stopSequences == []
  {
    BuildRequest(history + [UserMessage(input)], params)
  }

  /** The fatal error a non-exit turn ends with, if any, in the order the program checks. */
  function TurnFailure(params: Params, response: StreamResponse): Option<Error>
  {
    if !Encodable(params) then Some(MarshalError)
    else if response.InvokeFailed? then Some(TransportError)
    else if response.failed then Some(StreamError)
    else None
  }

  /** Whether a scripted turn reads a line, does not exit and completes. */
  predicate Completes(t: TurnScript, params: Params)
  {
    FirstLine(t.lines).Some? && FirstLine(t.lines).value != QuitToken && TurnFailure(params, t.response).None?
  }

  /** The exchange a completing turn adds to the conversation. */
  function ExchangeOf(t: TurnScript, params: Params): Exchange
    requires Completes(t, params)
  {
    Exchange(FirstLine(t.lines).value, StreamReply(t.response.events))
  }

  /** The conversation made of completed exchanges: user, then assistant, per exchange. */
  function Exchanges(xs: seq<Exchange>): seq<Message>
  {
    if xs == [] then []
    else
      var last := xs[|xs| - 1];
      Exchanges(xs[..|xs| - 1]) + [UserMessage(last.prompt), AssistantMessage(last.reply)]
  }

  /** A completed turn adds its user line and its reply at the end of the conversation. */
  lemma ExchangesSnoc(xs: seq<Exchange>, x: Exchange)
    ensures Exchanges(xs + [x]) == Exchanges(xs) + [UserMessage(x.prompt), AssistantMessage(x.reply)]
  {
    assert (xs + [x])[..|xs|] == xs;
  }

  /** The exchanges of the first turns of a script, each of which completed. */
  predicate CompletedPrefix(script: seq<TurnScript>, params: Params, done: seq<Exchange>)
  {
    |done| <= |script| &&
    forall k :: 0 <= k < |done| ==> Completes(script[k], params) && done[k] == ExchangeOf(script[k], params)
  }

  /** One more completed turn extends the completed prefix. */
  lemma CompletedPrefixSnoc(script: seq<TurnScript>, params: Params, done: seq<Exchange>, x: Exchange)
    requires CompletedPrefix(script, params, done) && |done| < |script|
    requires Completes(script[|done|], params) && x == ExchangeOf(script[|done|], params)
    ensures CompletedPrefix(script, params, done + [x])
  {
  }

  /** Roles alternate strictly, starting with the user, over whole exchanges. */
  ghost predicate Alternating(history: seq<Message>)
  {
    |history| % 2 == 0 &&
    forall i :: 0 <= i < |history| ==> history[i].role == (if i % 2 == 0 then UserRole else AssistantRole)
  }

  /** Message 2k of the conversation is the k-th user line and message 2k+1 the k-th reply. */
  lemma {:induction false} ExchangesShape(xs: seq<Exchange>)
    ensures |Exchanges(xs)| == 2 * |xs|
    ensures forall i :: 0 <= i < |Exchanges(xs)| ==>
              Exchanges(xs)[i] == if i % 2 == 0 then UserMessage(xs[i / 2].prompt) else AssistantMessage(xs[i / 2].reply)
    decreases |xs|
  {
    if xs != [] {
      var init := xs[..|xs| - 1];
      ExchangesShape(init);
      var h := Exchanges(xs);
      forall i | 0 <= i < |h|
        ensures h[i] == if i % 2 == 0 then UserMessage(xs[i / 2].prompt) else AssistantMessage(xs[i / 2].reply)
      {
        if i < 2 * |init| {
          assert h[i] == Exchanges(init)[i];
          assert init[i / 2] == xs[i / 2];
        }
      }
    }
  }

  /** After N completed turns the conversation has 2N messages alternating from the user. */
  lemma ExchangesAlternate(xs: seq<Exchange>)
    ensures |Exchanges(xs)| == 2 * |xs|
    ensures Alternating(Exchanges(xs))
  {
    ExchangesShape(xs);
  }

  /** Appending whole exchanges to an alternating conversation keeps it alternating. */
  lemma AlternatingAppend(a: seq<Message>, b: seq<Message>)
    requires Alternating(a) && Alternating(b)
    ensures Alternating(a + b)
  {
    forall i | |a| <= i < |a + b|
      ensures (a + b)[i].role == (if i % 2 == 0 then UserRole else AssistantRole)
    {
      assert (a + b)[i] == b[i - |a|];
      assert (i - |a|) % 2 == i % 2;
    }
  }

  /** Completed turns keep an alternating conversation alternating. */
  lemma AlternatingExchanges(history: seq<Message>, xs: seq<Exchange>)
    requires Alternating(history)
    ensures Alternating(history + Exchanges(xs))
  {
    ExchangesAlternate(xs);
    AlternatingAppend(history, Exchanges(xs));
  }

  /** A completed turn keeps an alternating conversation alternating. */
  lemma AlternatingExchange(history: seq<Message>, prompt: string, reply: string)
    requires Alternating(history)
    ensures Alternating(history + [UserMessage(prompt), AssistantMessage(reply)])
  {
    AlternatingAppend(history, [UserMessage(prompt), AssistantMessage(reply)]);
  }

  /** One chat session: the sampling parameters, read once, and the growing conversation. */
  class ChatSession {
    const params: Params
    var messages: seq<Message>

    /** The conversation is a sequence of whole user/assistant exchanges. */
    ghost predicate Valid()
      reads this
    {
      Alternating(messages)
    }

    constructor (params: Params)
      ensures this.params == params && messages == []
      ensures Valid()
    {
      this.params := params;
      messages := [];
    }

    /**
     * One iteration of the loop for an input line. The exit token ends the
     * session before anything is appended or sent. Any other line is
     * appended as a user message before the body is built from the whole
     * history; the reply is appended only when the stream ended without an
     * error, so a completed turn adds exactly the user and the assistant
     * message.
     */
    method Turn(input: string, response: StreamResponse) returns (outcome: TurnOutcome, sent: Option<RequestBody>)
      modifies this
      ensures outcome.Quit? <==> input == QuitToken
      ensures outcome.Quit? ==> sent == None && messages == old(messages)
      ensures !outcome.Quit? ==>
                sent == (if Encodable(params) then Some(NextRequest(old(messages), params, input)) else None)
      ensures !outcome.Quit? ==> (outcome.Fatal? <==> TurnFailure(params, response).Some?)
      ensures outcome.Fatal? ==>
                outcome.error == TurnFailure(params, response).value &&
                messages == old(messages) + [UserMessage(input)]
      ensures outcome.Replied? ==>
                response.Streamed? &&
                outcome.reply == StreamReply(response.events) &&
                outcome.printed == Echo(response.events[..FirstEnd(response.events)]) &&
                messages == old(messages) + [UserMessage(input), AssistantMessage(outcome.reply)]
      ensures outcome.Replied? && old(Valid()) ==> Valid()
    {
      if input == QuitToken {
        return Quit, None;
      }
      ghost var history := messages;
      messages := messages + [UserMessage(input)];
      var body := BuildRequest(messages, params);
      if !Marshalable(body) {
        return Fatal(MarshalError), None;
      }
      sent := Some(body);
      if response.InvokeFailed? {
        return Fatal(TransportError), sent;
      }
      var chunks, printed, _ := Reduce(response.events);
      if response.failed {
        return Fatal(StreamError), sent;
      }
      messages := messages + [AssistantMessage(chunks)];
      outcome := Replied(chunks, printed);
      if Alternating(history) {
        AlternatingExchange(history, input, chunks);
      }
    }

    /**
     * One pass of the loop body: read a line, then run the turn on it. The
     * loop goes on only after a completed turn, which added its exchange.
     */
    method Iteration(t: TurnScript) returns (step: Step)
      modifies this
      ensures step.Continue? <==> Completes(t, params)
      ensures step.Continue? ==>
                step.exchange == ExchangeOf(t, params) &&
                messages == old(messages) + [UserMessage(step.exchange.prompt), AssistantMessage(step.exchange.reply)]
      ensures step == Stop(AwaitingInput) <==> FirstLine(t.lines).None?
      ensures step == Stop(Exited) <==> FirstLine(t.lines) == Some(QuitToken)
      ensures step.Stop? && step.end.Failed? ==>
                FirstLine(t.lines).Some? && TurnFailure(params, t.response) == Some(step.end.error) &&
                messages == old(messages) + [UserMessage(FirstLine(t.lines).value)]
      ensures step.Stop? && !step.end.Failed? ==> messages == old(messages)
      ensures step.Continue? && old(Valid()) ==> Valid()
    {
      var line, _ := StringPrompt(t.lines);
      if line.None? {
        return Stop(AwaitingInput);
      }
      var outcome, _ := Turn(line.value, t.response);
      match outcome
      case Quit =>
        step := Stop(Exited);
      case Fatal(error) =>
        step := Stop(Failed(error));
      case Replied(reply, _) =>
        step := Continue(Exchange(line.value, reply));
    }

    /**
     * The turn loop over a script of turns. Every turn before the last one
     * completed and added its exchange; the session then exits on the exit
     * token, fails with the user's line left as the last message, or waits
     * for more input.
     */
    method Run(script: seq<TurnScript>) returns (end: SessionEnd, done: seq<Exchange>)
      modifies this
      ensures |done| <= |script|
      ensures forall k :: 0 <= k < |done| ==> Completes(script[k], params) && done[k] == ExchangeOf(script[k], params)
      ensures end.Exited? ==> |done| < |script| && FirstLine(script[|done|].lines) == Some(QuitToken)
      ensures |done| < |script| && FirstLine(script[|done|].lines) == Some(QuitToken) ==> end.Exited?
      ensures end.AwaitingInput? ==> |done| == |script| || FirstLine(script[|done|].lines).None?
      ensures end.Failed? ==>
                |done| < |script| && FirstLine(script[|done|].lines).Some? &&
                TurnFailure(params, script[|done|].response) == Some(end.error)
      ensures !end.Failed? ==> messages == old(messages) + Exchanges(done)
      ensures end.Failed? ==>
                messages == old(messages) + Exchanges(done) + [UserMessage(FirstLine(script[|done|].lines).value)]
      ensures !end.Failed? && old(Valid()) ==> Valid()
    {
      done := [];
      end := AwaitingInput;
      while |done| < |script|
        invariant CompletedPrefix(script, params, done)
        invariant messages == old(messages) + Exchanges(done)
      {
        var step := Iteration(script[|done|]);
        if step.Stop? {
          end := step.end;
          break;
        }
        ExchangesSnoc(done, step.exchange);
        CompletedPrefixSnoc(script, params, done, step.exchange);
        done := done + [step.exchange];
      }
      if !end.Failed? && old(Valid()) {
        AlternatingExchanges(old(messages), done);
      }
    }
  }

  /** Only the exact line "quit\n" exits; near misses are sent as ordinary prompts. */
  method ExitTokenExamples(params: Params)
  {
    var session := new ChatSession(params);
    var response := Streamed([End], false);
    var outcome, sent := session.Turn("quit", response);
    assert !outcome.Quit?;
    outcome, sent := session.Turn("quit\r\n", response);
    assert !outcome.Quit?;
    outcome, sent := session.Turn(" quit\n", response);
    assert !outcome.Quit?;
    var before := session.messages;
    outcome, sent := session.Turn("quit\n", response);
    assert outcome.Quit? && sent == None && session.messages == before;
  }
}
