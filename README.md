# chat-demo: a Dafny model of the Bedrock chat and prompt client

chat-demo is a small command-line client for Amazon Bedrock that talks to
Anthropic Claude in the messages format. It has two commands and two
stand-alone example programs that repeat them:

- `chat` (`cmd/chat.go`, repeated with hardcoded parameters in
  `examples/chat/main.go`): an interactive loop. Each turn reads one line,
  exits on the exact line `"quit\n"`, appends the line to the conversation as
  a user message, sends the whole conversation with the response-streaming
  call, folds the streamed `content_block_delta` fragments into one reply,
  and appends that reply as an assistant message.
- `prompt` (`cmd/prompt.go`, repeated in `examples/stdin/main.go`): a
  one-shot request. A non-empty document piped on standard input is put in
  front of the prompt inside `<document>` delimiters. The body holds exactly
  one user message, and the program prints the text of the first content
  block of the response.

The model keeps what these programs decide and leaves the SDK, JSON and the
terminal as inputs:

- `wrappers.dfy` (`Wrappers`): `Option` and `Result`.
- `messages.dfy` (`Messages`): content blocks, messages, the sampling
  parameters, the request body, the decoded response and the fatal errors. A
  float64 is a `Float` that is finite, NaN or infinite, because json.Marshal
  refuses the last two.
- `stream.dfy` (`Stream`): the stream reducer. The event channel is a
  `seq<Event>`, and `End` stands for the nil event. A receive on a closed
  channel yields nil, so running off the end of the sequence also ends the
  stream. Each chunk carries its decode result as an `Option<Delta>`.
- `chat.dfy` (`Chat`): the line reader `StringPrompt`, and the class
  `ChatSession`. The class has a `messages` field and three methods. `Turn`
  handles one input line. `Iteration` is one pass of the loop body: read a
  line, then run the turn. `Run` is the loop itself. The `stringPrompt` of
  `examples/chat/main.go:142-156` is the same function as in `cmd/chat.go`,
  and `Chat.StringPrompt` models both.
- `chat_example.dfy` (`ChatExample`): the example chat program, which is the
  same session with parameters fixed at 2000 tokens, top-p 0.999, top-k 250
  and temperature 1.
- `prompt.dfy` (`Prompt`): the prompt command, from choosing the prompt to
  extracting the answer.
- `stdin_example.dfy` (`StdinExample`): the example stdin program.

Fatal exits (`log.Fatalf`, `panic`, `os.Exit`) are outcome values.
`TurnOutcome.Quit` and `SessionEnd.Exited` are the status-0 exit, and
`Error` lists the fatal causes. When a chat turn fails after its user message
was appended, that message stays as the last one in the history. The process
exits at that point, and the model keeps this state as it is.

## Model

| member | source | states |
|---|---|---|
| `Messages.TextMessage` | cmd/chat.go:83-93 | a message has the given role and exactly one content block, of type "text", holding the given text |
| `Messages.BuildRequest` | cmd/chat.go:97-104 | the body carries the given messages, copies the sampling parameters unchanged (its parameter projection gives them back) and always has an empty stop-sequence list |
| `Stream.FirstEnd` | cmd/chat.go:127-147 | the index of the first nil event (or the length): no earlier event is nil, and the event there is nil |
| `Stream.Reduce` | cmd/chat.go:122-148 | the receive loop consumes events up to and including the first nil and no further; the reply starts empty and equals the in-order fold of decoded content-delta texts before that nil; what it prints is the delta texts and the catch-all raw values in order |
| `Stream.ReplySnoc` | cmd/chat.go:137-143 | one more event adds its delta text (or nothing) to the end of the reply and its output to the end of what is printed |
| `Stream.ReplyPrefix` | cmd/chat.go:127-143 | receiving the next event of a stream adds its delta text (or nothing) to the reply so far and its output to what was printed so far |
| `Stream.ReplyAppend` | cmd/chat.go:137-140 | fragments are appended in the order received: the reply over two event runs is the first run's reply followed by the second's |
| `Stream.TransparentEvent` | cmd/chat.go:130-144 | an undecodable chunk, a chunk of another type or a catch-all member can be removed from anywhere in the stream without changing the reply |
| `Stream.StopsAtFirstEnd` | cmd/chat.go:145-147 | for a stream with a nil after nil-free events, exactly those events and the nil are received, and nothing after the nil reaches the reply |
| `Stream.ReplyIsPrintedFragments` | cmd/chat.go:137-143 | the reply equals the concatenation of the delta texts printed during the stream; catch-all output never enters it |
| `Stream.ReplyOfDeltas` | cmd/chat.go:137-140 | over content deltas only, the reply is the in-order concatenation of their texts |
| `Stream.HelloExample` | cmd/chat.go:127-148 | "Hel" and "lo" then nil give the reply "Hello" |
| `Stream.CatchAllExample` | cmd/chat.go:127-148 | "A", a catch-all member, "B" then nil give the reply "AB" |
| `Chat.FirstLine` | cmd/chat.go:180-186 | the line found is never empty, and there is none exactly when every read is empty |
| `Chat.FirstLineAt` | cmd/chat.go:180-186 | a non-empty read preceded only by empty reads is the line returned |
| `Chat.StringPrompt` | cmd/chat.go:175-189 | the reader skips empty reads and returns the first non-empty one unchanged, trailing newline included; it never returns the empty string; it reports when reads run out |
| `Chat.NextRequest` | cmd/chat.go:83-104 | a turn's body is the prior history followed by one user message with one text block holding the raw input line, with the parameters copied and no stop sequences |
| `Chat.ExchangesSnoc` | cmd/chat.go:95-168 | a completed turn adds its user line and then its reply at the end of the conversation |
| `Chat.ExchangesShape` | cmd/chat.go:95-168 | after N completed turns the history has 2N messages; message 2k is the k-th user line and message 2k+1 the k-th reply |
| `Chat.ExchangesAlternate` | cmd/chat.go:156-168 | a history of completed turns alternates user/assistant starting with the user |
| `Chat.AlternatingAppend` | cmd/chat.go:156-168 | appending completed exchanges keeps an alternating history alternating |
| `Chat.AlternatingExchanges` | cmd/chat.go:95-168 | any number of completed turns appended to an alternating history keep it alternating |
| `Chat.AlternatingExchange` | cmd/chat.go:95-168 | one completed turn's user line and reply, appended to an alternating history, keep it alternating |
| `Chat.ChatSession.constructor` | cmd/chat.go:25-59 | a session starts with the parameters read once and an empty history |
| `Chat.ChatSession.Turn` | cmd/chat.go:66-168 | exactly the line "quit\n" exits, before any append or request; any other line is appended as a user message before the body is built from the whole history; a marshal, transport or stream error is fatal after that append and before the assistant append; a completed turn adds exactly the user message and an assistant message whose text is the stream's reply, so it keeps the history alternating; `Chat.ExitTokenExamples` shows that the near misses "quit", "quit\r\n" and " quit\n" are sent as prompts and only "quit\n" exits |
| `Chat.ChatSession.Iteration` | cmd/chat.go:66-168 | one pass of the loop body continues exactly when the turn completes, having added the user line and the stream's reply; it stops waiting for input when no line is read, exits exactly on "quit\n" with the history unchanged, or fails with the user line appended; a completed pass keeps the history alternating |
| `Chat.ChatSession.Run` | cmd/chat.go:59-169 | every turn before the session ends completed and added its exchange, so the history is the old one plus the exchanges; the session exits exactly when the next line read is the exit token, and otherwise ends on a fatal error (user line left last) or waiting for input; alternation is preserved |
| `ChatExample.RunExample` | examples/chat/main.go:28-138 | the example program starts empty with the fixed parameters; the completed turns are the longest prefix of turns that complete; it exits exactly when the next line read is the exit token, waits for input only when the script or its reads ran out, and fails only with the fixed-parameter failure of the next turn, leaving that user line last; unless a turn fails its history is 2N alternating messages for N completed turns |
| `ChatExample.FixedParametersEveryTurn` | examples/chat/main.go:66-73 | every body carries max tokens 2000, top-k 250, top-p 0.999, temperature 1, no stop sequences and the history plus the new user line; the body always encodes |
| `Prompt.WrapDocument` | cmd/prompt.go:70-73 | an empty document leaves the prompt unchanged; otherwise the result starts with the opening delimiter, has the length of delimiters, document and prompt together, and ends with the prompt |
| `Prompt.UnwrapWrap` | cmd/prompt.go:70-73 | the document is recovered exactly from the effective prompt, so wrapping loses nothing |
| `Prompt.WrapUnwrap` | cmd/prompt.go:70-73 | any text the unwrapping accepts is exactly `"<document>\n\n" + d + "\n\n</document>\n\n" + prompt` for the document d it returns |
| `Prompt.PromptUnchangedIffNoDocument` | cmd/prompt.go:57-73 | the prompt is unchanged exactly when standard input gives no document text: a terminal, an empty pipe, or a failed read (where the command stops before the prompt is used) |
| `Prompt.FirstContentText` | cmd/prompt.go:132-139 | the answer is the first content block's text; a decode failure and an empty content array are fatal, in that order |
| `Prompt.Ask` | cmd/prompt.go:55-139 | a failed stdin read or an unencodable body stops before sending; otherwise exactly one user message with one text block holding the effective prompt is sent, with the flags copied and no stop sequences; the output is a transport error or the first content block's text |
| `Prompt.AnswerIsFirstBlock` | cmd/prompt.go:130-139 | something is printed exactly when every step succeeded and the response has a content block, and it is that block's text |
| `Prompt.RunPromptCommandAsWritten` | cmd/prompt.go:51-53 | the prompt is the raw process argument os.Args[1]; a missing argument is fatal |
| `Prompt.RunPromptCommand` | cmd/prompt.go:19-53 | the command's first positional argument is the prompt; with none, the run is fatal |
| `Prompt.SubcommandNameIsSent` | cmd/prompt.go:53 | for `chat-demo prompt hi` the code as written sends "prompt", while the positional argument sends "hi" |
| `Prompt.PositionalPromptIsSent` | cmd/prompt.go:53-73 | with the positional argument, the sent text ends with the user's prompt and the piped document is recovered from it |
| `StdinExample.Run` | examples/stdin/main.go:17-107 | the prompt is os.Args[1]; a body is sent exactly when the argument exists and stdin was read; it has one user message with the effective prompt, max tokens 2000, top-k 250, top-p 0.999, temperature 1 and no stop sequences; a failed stdin read, a transport error and a decode or index failure each end in their own fatal error; the first content block's text is printed exactly when the response decodes and has a block |

## Findings

| source | as written | input that shows it | evidently intended | confidence | as-written member | corrected member |
|---|---|---|---|---|---|---|
| cmd/prompt.go:53 | the prompt is `os.Args[1]`, the first word on the process command line | `chat-demo prompt hi`: `os.Args` is `["chat-demo", "prompt", "hi"]`, so the text sent is `"prompt"` and `"hi"` is never sent | the prompt is the sub-command's first positional argument, `args[0]` | not executed | `Prompt.RunPromptCommandAsWritten` | `Prompt.RunPromptCommand` |

The code is correct in `examples/stdin/main.go:21`, which has no sub-command,
so `StdinExample.Run` uses `os.Args[1]`.

## Left out

- The AWS SDK: loading the configuration and region, creating the client, and the two invoke calls. Their results are inputs (`StreamResponse`, `InvokeResponse`). A configuration failure at start-up is not modelled.
- `encoding/json`: the decode result of each chunk and of the non-streaming body is an input `Option`. Chunks in the source are decoded into one reused `out` struct. A later chunk that lacks a field keeps the earlier value of that field. The model gives each decoded chunk its own type and text.
- The event channel and `stream.Close()`: the channel is a sequence, and closing the stream releases a resource only.
- Printing: the catch-all member's raw bytes are an opaque string (`Raw`). The greeting, the `chat called` line, the `> ` label, the newline after a reply and the log lines on standard error are not modelled.
- Terminal input: `stringPrompt` builds a new `bufio.Reader` on every call. With piped input, lines already buffered by an earlier reader are lost. The model takes the result of each line read as given. At end of input the source re-reads forever. The model ends with `None` or `AwaitingInput`.
- `isatty`: the terminal and Cygwin-terminal checks are both `Stdin.Terminal`.
- The `accept`, `contentType` and model-id strings: they go to the SDK, not into the body.
- Floats: temperature and top-p are passed through. The model does no arithmetic on them, and a finite value is an exact `real` (0.999 rather than its nearest float64).
- Integers: max tokens and top-k are Go `int` values passed through unchanged, so no width is modelled.
- `Chat.ChatSession.Turn`: a stream that ends with an error gives `Fatal(StreamError)` without the fragments `Reduce` already printed. The source prints them before it fails. The printed text is in the outcome only for a completed turn.
- Strings: text is a sequence of characters. Go strings are bytes, and `json.Marshal` replaces invalid UTF-8 (possible in piped standard input) with U+FFFD. The `sent` body is the body before encoding and keeps the characters unchanged.
- `cmd/root.go` (command registration and flag defaults) and `examples/prompt/main.go` (a hand-written JSON string sent as is) are not part of this model.
