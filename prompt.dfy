/**
 * The one-shot prompt command: it takes the prompt from the command line,
 * wraps a non-empty piped document in a <document> block in front of it,
 * sends exactly one user message, and prints the text of the first content
 * block of the decoded response.
 */
module Prompt {
  import opened Wrappers
  import opened Messages

  const DocumentOpen := "<document>\n\n"
  const DocumentClose := "\n\n</document>\n\n"

  /** Standard input: a terminal (nothing is read), a pipe with its contents, or a pipe whose read failed. */
  datatype Stdin = Terminal | Pipe(data: string) | PipeFailed

  /** What the non-streaming call gives back: a failure, or the body's decode result. */
  datatype InvokeResponse = InvokeFailed | Responded(decoded: Option<Response>)

  /** A run of the command: the body sent to the service, if any, and the printed text or the fatal error. */
  datatype PromptRun = PromptRun(sent: Option<RequestBody>, output: Result<string, Error>)

  /** The document read from standard input; empty for a terminal. */
  function Document(stdin: Stdin): string
  {
    if stdin.Pipe? then stdin.data else ""
  }

  /** The effective prompt: a non-empty document goes in front of the prompt, wrapped in delimiters. */
  function WrapDocument(prompt: string, document: string): (text: string)
    ensures document == "" ==> text == prompt
    ensures document != "" ==> |text| == |DocumentOpen| + |document| + |DocumentClose| + |prompt|
    ensures document != "" ==> text[..|DocumentOpen|] == DocumentOpen
    ensures |prompt| <= |text| && text[|text| - |prompt|..] == prompt
  {
    if document != "" then DocumentOpen + document + DocumentClose + prompt else prompt
  }

  /** Recovers the document from an effective prompt, given the prompt it ends with. */
  function UnwrapDocument(text: string, prompt: string): Option<string>
  {
    var body := |text| - |prompt| - |DocumentClose|;
    if text == prompt then Some("")
    else if |text| > |DocumentOpen| + |DocumentClose| + |prompt| &&
            text[..|DocumentOpen|] == DocumentOpen &&
            text[body..|text| - |prompt|] == DocumentClose &&
            text[|text| - |prompt|..] == prompt
    then Some(text[|DocumentOpen|..body])
    else None
  }

  /** Wrapping loses nothing: the document is recovered from the effective prompt. */
  lemma UnwrapWrap(prompt: string, document: string)
    ensures UnwrapDocument(WrapDocument(prompt, document), prompt) == Some(document)
  {
    var text := WrapDocument(prompt, document);
    if document != "" {
      var body := |text| - |prompt| - |DocumentClose|;
      assert text != prompt;
      assert text[body..|text| - |prompt|] == DocumentClose;
      assert text[|DocumentOpen|..body] == document;
    }
  }

  /** Every text the unwrapping accepts is the wrapping of what it returns. */
  lemma WrapUnwrap(text: string, prompt: string, document: string)
    requires UnwrapDocument(text, prompt) == Some(document)
    ensures WrapDocument(prompt, document) == text
  {
    if text != prompt {
      var body := |text| - |prompt| - |DocumentClose|;
      assert document == text[|DocumentOpen|..body];
      assert text == text[..|DocumentOpen|] + text[|DocumentOpen|..body] + text[body..|text| - |prompt|] + text[|text| - |prompt|..];
    }
  }

  /** The prompt is left unchanged exactly when standard input supplies no document. */
  lemma PromptUnchangedIffNoDocument(prompt: string, stdin: Stdin)
    ensures WrapDocument(prompt, Document(stdin)) == prompt <==> stdin.Terminal? || stdin.PipeFailed? || stdin == Pipe("")
  {
  }

  /** The text of the first content block of a decoded response. */
  function FirstContentText(decoded: Option<Response>): (text: Result<string, Error>)
    ensures text.Ok? <==> decoded.Some? && |decoded.value.content| > 0
    ensures text.Ok? ==> text.value == decoded.value.content[0].text
    ensures decoded.None? ==> text == Err(DecodeError)
    ensures decoded.Some? && decoded.value.content == [] ==> text == Err(IndexOutOfRange)
  {
    match decoded
    case None => Err(DecodeError)
    case Some(response) =>
      if |response.content| == 0 then Err(IndexOutOfRange) else Ok(response.content[0].text)
  }

  /**
   * The command once its prompt is chosen: read the document, wrap it,
   * build a one-message body, send it, and extract the answer. Each failure
   * is fatal and stops the run where it happens.
   */
  function Ask(prompt: string, stdin: Stdin, params: Params, response: InvokeResponse): (run: PromptRun)
    ensures stdin.PipeFailed? ==> run == PromptRun(None, Err(StdinReadError))
    ensures !stdin.PipeFailed? && !Encodable(params) ==> run == PromptRun(None, Err(MarshalError))
    ensures run.sent.Some? <==> !stdin.PipeFailed? && Encodable(params)
    ensures run.sent.Some? ==>
              var body := run.sent.value;
              |body.messages| == 1 && body.messages[0].role == UserRole &&
              body.messages[0].content == [ContentBlock(TextType, WrapDocument(prompt, Document(stdin)))] &&
              ParamsOf(body) == params && body.stopSequences == []
    ensures run.sent.Some? && response.InvokeFailed? ==> run.output == Err(TransportError)
    ensures run.sent.Some? && response.Responded? ==> run.output == FirstContentText(response.decoded)
  {
    if stdin.PipeFailed? then PromptRun(None, Err(StdinReadError))
    else
      var text := WrapDocument(prompt, Document(stdin));
      var body := BuildRequest([UserMessage(text)], params);
      if !Marshalable(body) then PromptRun(None, Err(MarshalError))
      else match response
        case InvokeFailed => PromptRun(Some(body), Err(TransportError))
        case Responded(decoded) => PromptRun(Some(body), FirstContentText(decoded))
  }

  /** The answer is printed only when the whole run succeeds, and it is the first block's text. */
  lemma AnswerIsFirstBlock(prompt: string, stdin: Stdin, params: Params, response: InvokeResponse)
    ensures var run := Ask(prompt, stdin, params, response);
            run.output.Ok? <==>
              !stdin.PipeFailed? && Encodable(params) && response.Responded? &&
              response.decoded.Some? && |response.decoded.value.content| > 0
    ensures var run := Ask(prompt, stdin, params, response);
            run.output.Ok? ==> run.output.value == response.decoded.value.content[0].text
  {
  }

  /** The prompt as written: the raw process argument os.Args[1]. */
  function ArgumentPrompt(osArgs: seq<string>): Result<string, Error>
  {
    if |osArgs| < 2 then Err(MissingArgument) else Ok(osArgs[1])
  }

  /** The prompt as intended: the first positional argument the command receives. */
  function PositionalPrompt(args: seq<string>): Result<string, Error>
  {
    if |args| == 0 then Err(MissingArgument) else Ok(args[0])
  }

  /** The command as written: it takes its prompt from os.Args[1]. */
  function RunPromptCommandAsWritten(osArgs: seq<string>, stdin: Stdin, params: Params, response: InvokeResponse): (run: PromptRun)
    ensures |osArgs| < 2 ==> run == PromptRun(None, Err(MissingArgument))
    ensures |osArgs| >= 2 ==> run == Ask(osArgs[1], stdin, params, response)
  {
    match ArgumentPrompt(osArgs)
    case Err(e) => PromptRun(None, Err(e))
    case Ok(prompt) => Ask(prompt, stdin, params, response)
  }

  /** The command as intended: it takes its prompt from its first positional argument. */
  function RunPromptCommand(args: seq<string>, stdin: Stdin, params: Params, response: InvokeResponse): (run: PromptRun)
    ensures |args| == 0 ==> run == PromptRun(None, Err(MissingArgument))
    ensures |args| > 0 ==> run == Ask(args[0], stdin, params, response)
  {
    match PositionalPrompt(args)
    case Err(e) => PromptRun(None, Err(e))
    case Ok(prompt) => Ask(prompt, stdin, params, response)
  }

  /**
   * Under `chat-demo prompt hi` the program's arguments are
   * ["chat-demo", "prompt", "hi"] and the command's positional arguments
   * are ["hi"]: as written, the text sent is the sub-command name "prompt"
   * and the user's "hi" is never sent.
   */
  lemma SubcommandNameIsSent(params: Params, response: InvokeResponse)
    requires Encodable(params)
    ensures var run := RunPromptCommandAsWritten(["chat-demo", "prompt", "hi"], Terminal, params, response);
            run.sent.Some? && run.sent.value.messages == [UserMessage("prompt")]
    ensures var run := RunPromptCommand(["hi"], Terminal, params, response);
            run.sent.Some? && run.sent.value.messages == [UserMessage("hi")]
  {
  }

  /** With the positional argument, the user's text is what the sent message ends with. */
  lemma {:induction false} PositionalPromptIsSent(args: seq<string>, stdin: Stdin, params: Params, response: InvokeResponse)
    requires |args| > 0
    ensures var run := RunPromptCommand(args, stdin, params, response);
            run.sent.Some? ==>
              var text := run.sent.value.messages[0].content[0].text;
              |args[0]| <= |text| && text[|text| - |args[0]|..] == args[0] &&
              UnwrapDocument(text, args[0]) == Some(Document(stdin))
  {
    UnwrapWrap(args[0], Document(stdin));
  }
}
