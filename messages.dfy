/**
 * The Anthropic Claude message format as the client builds and reads it:
 * content blocks, messages, the sampling parameters and the request body
 * that is serialised for Amazon Bedrock, and the decoded non-streaming
 * response.
 */
module Messages {

  const UserRole := "user"
  const AssistantRole := "assistant"
  const TextType := "text"

  /** One content block, `{type, text}`; the client only ever writes type "text". */
  datatype ContentBlock = ContentBlock(kind: string, text: string)

  /** One turn of the conversation: a role and its content blocks. */
  datatype Message = Message(role: string, content: seq<ContentBlock>)

  /**
   * A Go float64 as the flags deliver it. The client does no arithmetic on
   * it; what matters is only whether the JSON encoder accepts it, and it
   * refuses NaN and the infinities.
   */
  datatype Float = Finite(value: real) | NaN | Infinity(negative: bool)

  /** The sampling parameters, read once from the flags (or hardcoded). */
  datatype Params = Params(maxTokens: int, topP: Float, topK: int, temperature: Float)

  /** The request body, in the field order of the wire schema. */
  datatype RequestBody = RequestBody(
    messages: seq<Message>,
    maxTokens: int,
    topP: Float,
    topK: int,
    temperature: Float,
    stopSequences: seq<string>)

  /** A decoded non-streaming response: only its content blocks are read. */
  datatype Response = Response(content: seq<ContentBlock>)

  /** Every way a run of the client ends with a fatal error (log.Fatalf or a panic). */
  datatype Error =
    | MissingArgument   // indexing a command-line argument that is not there
    | StdinReadError    // io.ReadAll on piped standard input failed
    | MarshalError      // json.Marshal refused the request body
    | TransportError    // the Bedrock call itself failed
    | StreamError       // the response stream reported an error after it ended
    | DecodeError       // the non-streaming response body did not decode
    | IndexOutOfRange   // Content[0] of a response without content blocks

  /** The parameters both example programs hardcode. */
  const DemoParams := Params(2000, Finite(0.999), 250, Finite(1.0))

  /** A message holding exactly one text block. */
  function TextMessage(role: string, text: string): (m: Message)
    ensures m.role == role && |m.content| == 1
    ensures m.content[0].kind == TextType && m.content[0].text == text
  {
    Message(role, [ContentBlock(TextType, text)])
  }

  function UserMessage(text: string): Message
  {
    TextMessage(UserRole, text)
  }

  function AssistantMessage(text: string): Message
  {
    TextMessage(AssistantRole, text)
  }

  /** The sampling parameters a request body carries. */
  function ParamsOf(body: RequestBody): Params
  {
    Params(body.maxTokens, body.topP, body.topK, body.temperature)
  }

  /**
   * The body sent for a conversation: the messages as given, the parameters
   * copied unchanged, and always an empty list of stop sequences.
   */
  function BuildRequest(messages: seq<Message>, params: Params): (body: RequestBody)
    ensures body.messages == messages
    ensures ParamsOf(body) == params
    ensures body.stopSequences == []
  {
    RequestBody(messages, params.maxTokens, params.topP, params.topK, params.temperature, [])
  }

  /**
   * Whether json.Marshal accepts the body. Strings (invalid UTF-8 is
   * replaced, not refused), integers and slices always encode; a float64
   * that is NaN or infinite makes the encoder fail, so only the sampling
   * parameters decide.
   */
  predicate Marshalable(body: RequestBody)
  {
    Encodable(ParamsOf(body))
  }

  /** Whether the JSON encoder accepts these parameters: both floats finite. */
  predicate Encodable(params: Params)
  {
    params.topP.Finite? && params.temperature.Finite?
  }
}
