/**
 * The stand-alone stdin example: the prompt command with the prompt taken
 * from the first program argument and the sampling parameters hardcoded.
 */
module StdinExample {
  import opened Wrappers
  import opened Messages
  import opened Prompt

  /**
   * One run of the program. The hardcoded parameters always encode, so the
   * body is sent whenever the argument and the document could be read, and
   * the first content block's text is printed exactly when the response
   * decodes and has one; every other path ends in its own fatal error.
   */
  function Run(osArgs: seq<string>, stdin: Stdin, response: InvokeResponse): (run: PromptRun)
    ensures |osArgs| < 2 ==> run == PromptRun(None, Err(MissingArgument))
    ensures run.sent.Some? <==> |osArgs| >= 2 && !stdin.PipeFailed?
    ensures run.sent.Some? ==>
              var body := run.sent.value;
              body.maxTokens == 2000 && body.topK == 250 &&
              body.topP == Finite(0.999) && body.temperature == Finite(1.0) && body.stopSequences == [] &&
              body.messages == [UserMessage(WrapDocument(osArgs[1], Document(stdin)))]
    ensures |osArgs| >= 2 && stdin.PipeFailed? ==> run == PromptRun(None, Err(StdinReadError))
    ensures run.sent.Some? && response.InvokeFailed? ==> run.output == Err(TransportError)
    ensures run.sent.Some? && response.Responded? ==> run.output == FirstContentText(response.decoded)
    ensures run.output.Ok? <==>
              |osArgs| >= 2 && !stdin.PipeFailed? && response.Responded? &&
              response.decoded.Some? && |response.decoded.value.content| > 0
    ensures run.output.Ok? ==> run.output.value == response.decoded.value.content[0].text
  {
    match ArgumentPrompt(osArgs)
    case Err(e) => PromptRun(None, Err(e))
    case Ok(prompt) => Ask(prompt, stdin, DemoParams, response)
  }
}
