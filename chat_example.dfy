/**
 * The stand-alone chat example: the chat loop of the chat command with the
 * sampling parameters hardcoded instead of read from flags.
 */
module ChatExample {
  import opened Wrappers
  import opened Messages
  import opened Chat

  /**
   * A whole run of the program on a script of turns, starting from an empty
   * conversation. The completed turns are the longest prefix of turns that
   * complete; unless the next turn failed, the conversation is their
   * exchanges: 2N messages alternating from the user. A failed turn leaves
   * its user line last.
   */
  method RunExample(script: seq<TurnScript>) returns (session: ChatSession, end: SessionEnd, done: seq<Exchange>)
    ensures session.params == DemoParams
    ensures |done| <= |script|
    ensures forall k :: 0 <= k < |done| ==> Completes(script[k], DemoParams) && done[k] == ExchangeOf(script[k], DemoParams)
    ensures !end.Failed? ==> session.messages == Exchanges(done) && |session.messages| == 2 * |done|
    ensures !end.Failed? ==> Alternating(session.messages)
    ensures end.Exited? ==> |done| < |script| && FirstLine(script[|done|].lines) == Some(QuitToken)
    ensures |done| < |script| && FirstLine(script[|done|].lines) == Some(QuitToken) ==> end.Exited?
    ensures end.AwaitingInput? ==> |done| == |script| || FirstLine(script[|done|].lines).None?
    ensures end.Failed? ==>
              |done| < |script| && FirstLine(script[|done|].lines).Some? &&
              TurnFailure(DemoParams, script[|done|].response) == Some(end.error)
    ensures end.Failed? ==> session.messages == Exchanges(done) + [UserMessage(FirstLine(script[|done|].lines).value)]
  {
    session := new ChatSession(DemoParams);
    end, done := session.Run(script);
    if !end.Failed? {
      ExchangesAlternate(done);
    }
  }

  /**
   * With the hardcoded parameters the body always encodes, so a turn can
   * only fail in the service call or the stream, and every body carries
   * 2000 tokens, top-k 250, top-p 0.999, temperature 1 and no stop sequences.
   */
  lemma FixedParametersEveryTurn(history: seq<Message>, input: string, response: StreamResponse)
    ensures Encodable(DemoParams)
    ensures TurnFailure(DemoParams, response) != Some(MarshalError)
    ensures var body := NextRequest(history, DemoParams, input);
            body.maxTokens == 2000 && body.topK == 250 && body.topP == Finite(0.999) &&
            body.temperature == Finite(1.0) && body.stopSequences == [] &&
            body.messages == history + [UserMessage(input)]
  {
  }
}
