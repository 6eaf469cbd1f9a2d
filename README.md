# ChatWithYourData — a verified model of the chat turn

ChatWithYourData is a Streamlit app that puts a LangGraph ReAct agent in
front of a database. The agent has two tools. One asks the human a
clarifying question. The other renders a Plotly chart. This project models
the sequential logic of the app and proves properties of that model:

- **BedrockFormat** (`bedrock_format.dfy`) models `format_messages_for_bedrock`.
  It maps typed chat messages to role/content records and drops kinds it
  does not know. Between two adjacent assistant records it inserts a
  "Please continue." user record. The method is the loop as written,
  including the IndexError that line 65 raises on short lists. A corrected
  variant is proved alongside it.
- **ChunkContent** (`chunk_content.dfy`) models the classification of a
  streamed chunk's `content` into the text it contributes. This is a pure
  function, and it includes the KeyErrors the dictionary lookups can raise.
- **EventFold** (`event_fold.dfy`) models `process_stream`. The class
  `StreamState` holds the three `nonlocal` cells: `full_response`,
  `agent_question` and `figure`. Its method `ProcessStream` folds one run's
  events into them. It returns early with the human's answer. The function
  `RunFold` specifies it. Reference definitions state what a run reads, what
  text it streams, and which question and figure it leaves. Lemmas connect
  the two.
- **Turn** (`turn.dfy`) models `main` from the chat input on. The class
  `Session` holds the message history. The method `HandleUserInput` appends
  the user's message and then re-runs the agent once for every run that
  ended with an answer, appending each answer as a human message. When a
  run returns nothing, it appends one AI message holding the accumulated
  response. Lemmas prove the following:
  - the full transcript a turn appends;
  - the accumulators are not reset between runs;
  - every history that turns build has human and AI messages only, never
    two AI messages in a row, so `format_messages_for_bedrock` accepts it
    unchanged.
- **Messages** and **Wrappers** hold the LangChain message kinds and the
  `Option`/`Result` types.

The backend is not modelled. A turn receives its event streams as a finite
sequence `runs`, one event list per invocation of the agent. Each "human"
tool start carries the answer the answer box returns while that event is
handled, with "" meaning nothing was typed.

## Model

| member | source | states |
|---|---|---|
| BedrockFormat.FormatMessagesForBedrock | app.py:54-68 | Succeeds exactly when the input is index-safe. On success it returns the mapped records with a placeholder between every pair of adjacent assistant records. It can only fail with an IndexError at position 1 |
| BedrockFormat.RoleMapping | app.py:57-62 | System, Human and AI messages give exactly one record. Its role is "system", "user" or "assistant" respectively, and its content is unchanged. Any other message kind gives no record |
| BedrockFormat.MappedAppend | app.py:56-62 | Mapping works message by message: the records of `a + b` are the records of `a` followed by those of `b`, so input order is kept |
| BedrockFormat.MappedLength | app.py:56-62 | Each message contributes at most one record |
| BedrockFormat.AlternatedAlternates | app.py:64-66 | The result never has two adjacent assistant records |
| BedrockFormat.AlternatedLength | app.py:55-68 | The output length is the number of mapped records plus the number of adjacent assistant pairs among them |
| BedrockFormat.AlternatedErasure | app.py:55-68 | Deleting the inserted placeholders gives back exactly the mapped input |
| BedrockFormat.InsertedPositions | app.py:65-66 | Every inserted record is the "user"/"Please continue." placeholder. It is never first or last, and it sits between two assistant records |
| BedrockFormat.AlternatedIdentity | app.py:64-66 | Records that already alternate come back unchanged; nothing is inserted |
| BedrockFormat.IndexSafeIff | app.py:65 | Indexing `[-1]`/`[-2]` is safe at every position i > 0 exactly when the input has fewer than two messages, or its first two messages are both of a recognised kind |
| BedrockFormat.IndexSafeAtOne | app.py:65 | Index safety is decided at position 1: at least two records must exist after the first two messages |
| BedrockFormat.UnrecognisedLeadFails | app.py:65 | A leading unrecognised message followed by a human message fails the indexing |
| BedrockFormat.FormatMessagesGuarded | app.py:54-68 | The loop with the corrected guard never fails. It returns the mapped records with placeholders inserted, with no two adjacent assistant records |
| ChunkContent.ExtractText | app.py:138-144 | A string chunk contributes itself. A list whose first item is a dict of type "text" contributes that item's "text". Every other list contributes "". A KeyError is raised exactly when a leading dict lacks "type", or is of type "text" and lacks "text" |
| EventFold.StopIndex | app.py:151-157 | A run reads no more than its events, up to and including the first answered "human" start: no event before the last one read answers, and when events are left unread the last one read answers. When every event is read and the last does not answer, none of them answers |
| EventFold.RunTrichotomy | app.py:129-157 | Every run either reads all its events, or is suspended by an answered "human" start, or meets a failing chunk first |
| EventFold.RunFoldCompletes | app.py:129-157 | A run with no answered "human" start and no failing chunk reads every event and returns nothing |
| EventFold.RunFoldSuspends | app.py:151-157 | A run whose first stopping event is an answered "human" start returns that answer. It reads nothing after that event |
| EventFold.RunFoldRaises | app.py:137-144 | A run whose first stopping event is a failing chunk raises that chunk's KeyError |
| EventFold.RunExitCases | app.py:129-157 | The three exits are decided by the events. The run returns "" if and only if it reads everything. It returns a non-empty answer if and only if it is suspended, and that answer is the answer of its last event read. It raises if and only if a failing chunk comes first |
| EventFold.StreamedTextAppend | app.py:145 | The streamed text of `a + b` is that of `a` followed by that of `b` |
| EventFold.LastFigureAppend | app.py:134-136 | The figure after `a + b` is the figure of `b` started from the figure after `a`: the last truthy artifact wins |
| EventFold.LastQuestionAppend | app.py:151-152 | The question after `a + b` is the question of `b` started from the question after `a`: the last "human" start wins |
| EventFold.ThroughAppend | app.py:127-157 | Reading `a` and then `b` leaves the same accumulators as reading `a + b` |
| EventFold.RunFoldAccumulates | app.py:123-157 | Unless a chunk raises, a run leaves three results. The response is the old one followed by the text of every chunk read, in order. The question is the last one read. The figure comes from the last truthy artifact read, and the old one stays when there is none |
| EventFold.StreamState.constructor | app.py:123-125 | The cells start as "", "" and None |
| EventFold.StreamState.ProcessStream | app.py:127-157 | The exit and the new cells are exactly what `RunFold` gives from the old cells |
| Turn.HumanMessages | app.py:162 | One human message per answer, in order, with the answer as content |
| Turn.Session.constructor | app.py:87 | The history starts empty |
| Turn.HandleUserInput | app.py:109-173 | With no input, nothing changes. Otherwise three things hold. The old history is kept. The turn appends the user's message, then one human message per answer, then, when a run completes, the AI message. Status and shown accumulators are those of `Loop` |
| Turn.HumanMessagesSnoc | app.py:162 | Appending one more answer appends one human message |
| Turn.LoopAnswers | app.py:159-164 | Each collected answer is non-empty. It is the answer of the "human" start that suspended the run at the same position. The loop stops at the first run that completes or raises, or when the runs run out |
| Turn.LoopAccumulates | app.py:123-160 | Unless a chunk raises, the accumulators are never reset between runs. The response is the text of every chunk read by every run used, in order. The question and the figure are the last ones read by any run |
| Turn.TurnTranscript | app.py:114-173 | A completed turn appends, in order: the user's message, the answers as human messages, and one AI message. The AI message holds the text streamed by all the runs used. Any other turn appends no AI message |
| Turn.ChatShapedAppend | app.py:114-173 | Gluing two histories of this shape gives one of the same shape when the second starts with a human message |
| Turn.AppendedShaped | app.py:114-173 | What one turn appends starts with the user's message and never has two AI messages in a row |
| Turn.TurnKeepsShape | app.py:114-173 | Each turn keeps the history made of human and AI messages only, never two AI messages in a row |
| Turn.MappedChat | app.py:57-62 | A history of human and AI messages maps to one record per message. A record is an assistant record exactly when its message is an AI message |
| Turn.ChatHistoryFormatsCleanly | app.py:54-68 | A history of that shape passes `format_messages_for_bedrock` without an IndexError, and no placeholder is inserted |
| Turn.ResponseSpansRuns | app.py:123-173 | In a concrete turn, text from both runs ends up in the single AI message. The first run streams "Let me ask. " and is answered "yes". The second run streams "Done." |

## Left out

- Streamlit UI calls are not modelled: titles, chat bubbles, placeholders, markdown, info boxes, charts, `chat_input` and `text_input`. The chat input becomes the `userInput` parameter, where "" means no input. A typed answer is carried on the "human" tool start.
- The construction of the LLM and the agent is not modelled: `AzureChatOpenAI`, secrets, `create_react_agent`, `MemorySaver` (app.py:70-87). Only the empty history at app.py:87 is kept.
- The real `astream_events` backend is not modelled. A run's events are a given finite list. A turn's runs are a given finite sequence, and when they run out while the agent is still suspended, the status is `OutOfRuns`. The source's `while True` loop never ends in that case.
- `asyncio` and `run_async` (app.py:89-92) are not modelled. Control is sequential.
- `render_plotly_graph` and the `plotly_tool` registration (app.py:177-188) are not modelled. The same goes for the `HumanInputStreamlit` tool body (app.py:33-49), which only calls the UI.
- `from_json` (app.py:136) is not interpreted. A figure is known only by the artifact text it was built from. The truthiness test `if figure:` at line 169 only affects display.
- Only the fields of an event that the fold reads are modelled. A tool-end output is assumed to have an `artifact` attribute, and every event is assumed to carry the keys the code subscripts. The AttributeError and KeyError Python would raise otherwise are not modelled. Dictionary values of a chunk item are strings, so the TypeError that `full_response += content` (line 145) would raise on a non-string "text" value is not modelled either.
- Message content is a string. Structured message content is not modelled.
- The figure is never appended to the history, because lines 174-175 are commented out.
- When a chunk raises, the exception leaves `main`. The partial accumulators at that point are returned but no lemma is stated about them.
- `format_messages_for_bedrock` is never called by the rest of `app.py`. `Turn.ChatHistoryFormatsCleanly` states what it would do on the histories turns build.
- Behaviours of `app.py` the model keeps as the code has them:
  - A chunk whose leading dictionary lacks "type" raises KeyError. It is not treated as empty.
  - Text streamed before the human's question is not discarded on resume. It stays in the final AI message, because the accumulators are initialised once per turn at lines 123-125.
  - A "human" tool start with no typed answer suspends nothing. `agent_question` is set and the run reads on (lines 151-157).
  - The history records no tool start and no tool result. Only the user's message, the answers as human messages and the final AI message are appended (lines 114, 162, 173).
  - The placeholder insertion lives in `format_messages_for_bedrock`, not in the turn loop.

## Findings

| source | as written | input that shows it | evidently intended | confidence | as-written member | corrected member |
|---|---|---|---|---|---|---|
| app.py:65 | The guard `i > 0` lets `formatted_messages[-1]` and `[-2]` be read when fewer than two records exist, which raises IndexError | `[OtherMessage(..), HumanMessage(q)]` or `[HumanMessage(q), OtherMessage(..)]`: at position 1 there is only one record | Compare the last two records only when there are two (`len(formatted_messages) >= 2`); the function then never fails and still alternates | not executed | BedrockFormat.UnrecognisedLeadFails | BedrockFormat.FormatMessagesGuarded |
