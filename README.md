# Critical AI Surveys — a verified model of the survey core

Critical AI Surveys is a survey platform. An author writes a survey of
Likert-scale and free-text questions, reorders them by drag and drop and
publishes the survey. A participant then goes through these stages:

- a baseline opinion;
- a Socratic conversation with an AI whose reply streams back as
  Server-Sent Events;
- a reflection;
- peer evaluation, where the participant votes on other participants'
  answers;
- a live opinion distribution.

This project models the following in Dafny and proves properties of the
model:

- the request schemas the API validates;
- the back-end services for surveys, responses, votes and chat;
- the streamed reply and the event-stream decoding of it;
- the client-side state machines of the authoring page, the participation
  flow, the chat panel, the peer-evaluation step and the distribution step.

Layout, one module per file:

- `wrappers.dfy`: `Option` and `Result`.
- `json.dfy`: a JSON value. Numbers are reals, and objects are maps.
- `text.dfy` covers characters and strings:
  - JavaScript's `\s` class, `trim` and ASCII `toLowerCase`;
  - a string's JavaScript `length`, in UTF-16 code units, which is what
    the schemas' length bounds measure;
  - the UUID layout;
  - decimal rendering of a clock reading;
  - string concatenation over a sequence.
- `sorting.dfy`: a stable insertion sort by a key. It stands in for the
  database's `orderBy`.
- `question_schemas.dfy` and `feedback_schema.dfy`: the zod schemas as
  parsers from JSON to typed values, with their encoders.
- `responses.dfy`, `votes.dfy`, `surveys.dfy` and `chat_service.dfy`: the
  services. Each table is a `seq` field of a class, and each service
  method appends to it or rewrites it.
- `event_stream.dfy`: the text format the chat reply is written in, and the
  browser's decoder for it. The decoder follows section 9.2 of the WHATWG
  HTML Living Standard.
- `fetch.dfy`: how a browser `fetch` can end. It either answers `ok`,
  answers with an error status, or rejects. It also models the
  `err instanceof Error ? err.message : …` fallback.
- `question_list.dfy` and `create_page.dfy`: the authoring page.
- `participation_flow.dfy`, `chat_interface.dfy`, `peer_evaluation.dfy` and
  `opinion_distribution.dfy`: the participant's pages.

Each React component becomes two things:

- a pure transition function over a state datatype;
- a class with the component's state fields, whose methods are proved to
  perform that transition.

Outside inputs become parameters of the operations:

- identifiers, timestamps, random slug suffixes and `Date.now()`;
- how each `fetch` ended;
- the order in which `Object.entries` lists keys.

## Model

| member | source | states |
|---|---|---|
| QuestionSchemas.ParseQuestion | packages/schemas/src/index.ts:4-38 | a JSON value is accepted exactly when it satisfies the discriminated union (title of JavaScript length 1..500, optional uuid id, integer orderIndex, likert scale of 2..10 integers with at least 2 labels, free-text minLength >= 0 and maxLength >= 1); the accepted question is well formed and keeps the title, order and type tag |
| QuestionSchemas.RequiredFlag | packages/schemas/src/index.ts:19-28 | `required` defaults to true when absent and is the given boolean otherwise |
| QuestionSchemas.ParseEncodeRoundTrip | packages/schemas/src/index.ts:35-38 | every well-formed question encodes to JSON that parses back to the same question |
| QuestionSchemas.LikertRoundTrip | packages/schemas/src/index.ts:12-21 | the round trip for Likert questions, scale and labels included |
| QuestionSchemas.FreeTextRoundTrip | packages/schemas/src/index.ts:24-32 | the round trip for free-text questions, optional length bounds included |
| QuestionSchemas.ParseIdempotent | packages/schemas/src/index.ts:35-38 | parsing, re-encoding and parsing again gives the first parse |
| QuestionSchemas.ParseCreateSurvey | packages/schemas/src/index.ts:44-47 | accepted exactly when the title has a JavaScript length of 1..500 and the optional description at most 5000; the parsed title is the input's, and the description is present iff given and then the input's |
| QuestionSchemas.CreateSurveyRoundTrip | packages/schemas/src/index.ts:44-47 | every well-formed create-survey input parses back from its JSON unchanged |
| QuestionSchemas.ParseQuestions | packages/schemas/src/index.ts:53 | the question array parses element by element, position for position |
| QuestionSchemas.ParseUpdateSurvey | packages/schemas/src/index.ts:50-58 | accepted exactly when every present field is valid; each field is present iff its key is, and then holds the input's value: the title and description as given, the questions parsed position for position, the settings' visibility and enableAI as given |
| QuestionSchemas.UpdateSurveyRoundTrip | packages/schemas/src/index.ts:50-58 | every well-formed update-survey input, questions and settings included, parses back from its JSON unchanged |
| FeedbackSchema.ParseFeedback | packages/schemas/src/feedback.ts:4-9 | accepted exactly when sessionId is a uuid, experienceRating an integer 1..5, the rating one of four names and suggestions of JavaScript length at most 2000; the result is well formed |
| FeedbackSchema.ParseEncodeRoundTrip | packages/schemas/src/feedback.ts:4-9 | every well-formed feedback input round-trips through its JSON |
| FeedbackSchema.ExperienceRatingRange | packages/schemas/src/feedback.ts:6 | the minimal feedback object is valid iff its integer rating lies in 1..5 |
| FeedbackSchema.FractionalRatingRejected | packages/schemas/src/feedback.ts:6 | any object whose rating is not an integer is rejected |
| Text.Utf16LengthBmp | packages/schemas/src/index.ts:6 | a string length as zod measures it counts one unit per character inside the Basic Multilingual Plane |
| Text.TrimEmptyIff | apps/web/src/components/survey/ChatInterface.tsx:31 | `trim()` is empty exactly when every character is JavaScript whitespace |
| Text.Lower | apps/api/src/modules/surveys/surveys.service.ts:9 | lower-casing keeps the length and maps each character independently |
| Text.DecimalRoundTrip | apps/web/src/app/create/page.tsx:21 | the decimal text of a clock reading is all digits and reads back as that number |
| Text.DecimalInjective | apps/web/src/app/create/page.tsx:21 | distinct clock readings give distinct temporary ids |
| Surveys.Slug | apps/api/src/modules/surveys/surveys.service.ts:5-9 | a slug ends in `-` and the six-character suffix, has no whitespace and no upper-case letter |
| Surveys.CollapseRun | apps/api/src/modules/surveys/surveys.service.ts:9 | a whole run of whitespace between non-whitespace becomes exactly one `-` |
| Surveys.SlugOfPlainTitle | apps/api/src/modules/surveys/surveys.service.ts:9 | a lower-case title without whitespace is kept verbatim in front of the suffix |
| Surveys.SurveyService.CreateSurvey | apps/api/src/modules/surveys/surveys.service.ts:8-17 | stores the input with its derived slug and author, appended to the table; a slug already present is refused and nothing is written |
| Surveys.Read | apps/api/src/modules/surveys/surveys.service.ts:19-43 | found iff a row has the key; the questions are exactly that survey's questions, sorted by orderIndex ascending |
| Surveys.ReadBySlugAgreesWithId | apps/api/src/modules/surveys/surveys.service.ts:19-43 | reading a survey by its slug and by its id gives the same result |
| Surveys.SurveyService.GetSurveyById | apps/api/src/modules/surveys/surveys.service.ts:32-43 | none iff no row has the id; otherwise that survey and a permutation of its questions sorted by orderIndex |
| Surveys.SurveyService.GetSurveyBySlug | apps/api/src/modules/surveys/surveys.service.ts:19-30 | the same for the slug |
| Surveys.QuestionOps | apps/api/src/modules/surveys/surveys.service.ts:55-70 | without `questions` no question operation; with them one operation per question, writing exactly that multiset of questions to this survey |
| Surveys.SplitPartitions | apps/api/src/modules/surveys/surveys.service.ts:56-67 | creates and updates together cover every question once: each question without an id is created, each with one is updated under its id |
| Surveys.CreatesBeforeUpdates | apps/api/src/modules/surveys/surveys.service.ts:69 | no create follows an update in the transaction |
| Surveys.SurveyService.UpdateSurvey | apps/api/src/modules/surveys/surveys.service.ts:45-73 | the survey update comes first, followed by the question operations, all for this survey |
| Surveys.Publish | apps/api/src/modules/surveys/surveys.service.ts:78-81 | status becomes published and publishedAt the given time; no other field changes |
| Surveys.SurveyService.PublishSurvey | apps/api/src/modules/surveys/surveys.service.ts:75-83 | fails iff no survey has the id and then writes nothing; otherwise exactly that row is replaced by its published form |
| Responses.ResponseService.SubmitResponse | apps/api/src/modules/responses/responses.service.ts:5-13 | appends a response with the given question, session and value and no predecessor |
| Responses.ResponseService.UpdateResponse | apps/api/src/modules/responses/responses.service.ts:15-30 | fails iff the original is missing and then writes nothing; otherwise appends a revision with the original's question and session, the new value and a link to the original |
| Responses.RootIndex | apps/api/src/modules/responses/responses.service.ts:22-29 | following revision links always ends at an original answer for the same question and session |
| Responses.RevisionSharesRoot | apps/api/src/modules/responses/responses.service.ts:22-29 | a revision keeps the table's lineage consistent and resolves to the same original answer as the response it revises |
| Responses.RootIndexOfPrefix | apps/api/src/modules/responses/responses.service.ts:22-29 | appending a row does not change where earlier rows resolve |
| Votes.VotedIds | apps/api/src/modules/votes/votes.service.ts:11-14 | exactly the non-null targets of this session's votes |
| Votes.OwnIds | apps/api/src/modules/votes/votes.service.ts:17-20 | exactly the ids of this session's responses |
| Votes.GetVotingQueue | apps/api/src/modules/votes/votes.service.ts:9-44 | at most 10 entries, newest first, each an original response of the survey that the session neither wrote nor voted on; no ledger row is offered more often than it occurs in the ledger; an eligible response is left out only when 10 newer-or-equal ones fill the queue |
| Votes.CandidatesByMembership | apps/api/src/modules/votes/votes.service.ts:29 | the `notIn` filter depends only on which ids are excluded, not on their order or repetition |
| Votes.RepeatedVoteSameQueue | apps/api/src/modules/votes/votes.service.ts:11-29 | voting twice on the same answer leaves the same queue as voting once |
| Votes.VotedAnswerLeavesQueue | apps/api/src/modules/votes/votes.service.ts:11-29 | once a session has voted on an answer, that answer is never in its queue again |
| Votes.VoteService.SubmitVote | apps/api/src/modules/votes/votes.service.ts:49-58 | appends one vote carrying the target, session, type and reason of the input |
| ChatService.ChatService.StartChat | apps/api/src/modules/chat/chat.service.ts:38-50 | appends one chat record with the socratic persona, turn 0, the initial context as user message and the fixed greeting |
| ChatService.ReplyStream.Tick | apps/api/src/modules/chat/chat.service.ts:16-25 | each tick writes the next chunk's `data:` frame and advances, or, past the last chunk, writes the completion frame and ends |
| ChatService.MockAiProvider.StreamResponse | apps/api/src/modules/chat/chat.service.ts:6-28 | the ticks yield one frame per chunk in order, then the completion frame |
| ChatService.ChatService.SendMessage | apps/api/src/modules/chat/chat.service.ts:52-56 | the reply stream does not depend on the chat or the message |
| ChatService.ReplySentence | apps/api/src/modules/chat/chat.service.ts:8-13 | the chunks joined in order are exactly "That's an interesting point. Have you considered the economic implications of that perspective? For example, how might it affect jobs in traditional industries?" |
| ChatService.ReplyFrameOrder | apps/api/src/modules/chat/chat.service.ts:17-23 | 23 delta frames, each carrying its chunk, and the completion frame last |
| ChatService.ReplyDecodes | apps/api/src/modules/chat/chat.service.ts:18-22 | decoding the whole written stream yields one `message` event per chunk carrying its JSON, then one `message_complete` event, with the decoder back in its initial state |
| EventStream.DeltaRoundTrip | apps/api/src/modules/chat/chat.service.ts:18 | `JSON.stringify({ delta })` of a chunk reads back as that chunk's delta |
| EventStream.DeltaFrameDispatch | apps/api/src/modules/chat/chat.service.ts:18 | one `data:` frame dispatches exactly one `message` event carrying the JSON |
| EventStream.CompleteFrameDispatch | apps/api/src/modules/chat/chat.service.ts:22 | the completion frame dispatches exactly one `message_complete` event with its data |
| EventStream.FeedConcat | apps/api/src/modules/chat/chat.service.ts:16-25 | decoding a stream in two pieces gives the same events as decoding it whole |
| EventStream.FeedFrames | apps/api/src/modules/chat/chat.service.ts:16-25 | a run of self-contained frames decodes to the concatenation of their events |
| QuestionList.FindIndex | apps/web/src/components/survey/QuestionList.tsx:39-40 | the first position holding the id, or none iff no question has it |
| QuestionList.MovePermutes | apps/web/src/components/survey/QuestionList.tsx:42 | `arrayMove` is a permutation |
| QuestionList.MovePositions | apps/web/src/components/survey/QuestionList.tsx:42 | the moved item lands at the target, the items between shift by one toward the gap and the rest stay |
| QuestionList.DragEnd | apps/web/src/components/survey/QuestionList.tsx:35-46 | a drop on nothing or on the dragged item itself leaves the list unchanged |
| QuestionList.DragEndReorders | apps/web/src/components/survey/QuestionList.tsx:38-44 | after a real drop the dragged question sits at the target position, the list is numbered 1..n and, ignoring numbers, a permutation of the input |
| QuestionList.DragEndShifts | apps/web/src/components/survey/QuestionList.tsx:42-43 | every other question shifts by one toward the vacated position or keeps its place |
| CreatePage.AddQuestion | apps/web/src/app/create/page.tsx:18-25 | the draft is appended with id `temp-id-` and the clock reading and with orderIndex one past the list; earlier questions are untouched |
| CreatePage.AddKeepsNumbering | apps/web/src/app/create/page.tsx:22 | adding keeps a list numbered 1..n numbered 1..n+1 |
| CreatePage.DragEndNumbers | apps/web/src/components/survey/QuestionList.tsx:43 | reordering keeps a numbered list numbered |
| CreatePage.StripIds | apps/web/src/app/create/page.tsx:47 | every question loses its id and nothing else |
| CreatePage.Save | apps/web/src/app/create/page.tsx:27-68 | the create request always goes first; the questions request is sent iff the survey was created and there are questions, and carries them without ids; success is reported iff every request sent succeeded |
| CreatePage.SavedQuestionsAreCreated | apps/api/src/modules/surveys/surveys.service.ts:55-67 | the questions the page sends all become creates, in the page's order, and none becomes an update |
| ParticipationFlow.AfterSession | apps/web/src/components/survey/SurveyParticipationFlow.tsx:34-58 | a created session opens step 1; an error status shows "Failed to create session"; a rejection shows its message or the unknown-error text; loading ends in every case |
| ParticipationFlow.SurveyParticipationFlow.CreateSession | apps/web/src/components/survey/SurveyParticipationFlow.tsx:34-58 | the fields change exactly as the session transition says |
| ParticipationFlow.BaselineCompletion | apps/web/src/components/survey/SurveyParticipationFlow.tsx:61-79 | completing step 1 records the baseline and requests a chat seeded with its justification; the flow reaches step 2 iff the chat started, and otherwise shows the matching error |
| ParticipationFlow.OtherCompletion | apps/web/src/components/survey/SurveyParticipationFlow.tsx:80-82 | every other step advances by one and sends nothing |
| ParticipationFlow.CompletionMonotone | apps/web/src/components/survey/SurveyParticipationFlow.tsx:60-83 | a completion never goes back or skips; it stays put exactly when the chat failed to start |
| ParticipationFlow.SurveyParticipationFlow.HandleStepComplete | apps/web/src/components/survey/SurveyParticipationFlow.tsx:60-83 | the fields and the request sent are exactly the completion transition's |
| ParticipationFlow.Render | apps/web/src/components/survey/SurveyParticipationFlow.tsx:85-133 | loading, then the error, then the missing session take precedence; each step's view is shown iff its data is present, with that data |
| ParticipationFlow.ReachableViews | apps/web/src/components/survey/SurveyParticipationFlow.tsx:93-118 | on every reachable state the missing-session, starting-chat and missing-baseline fallbacks never show |
| ParticipationFlow.CompletionKeepsReachable | apps/web/src/components/survey/SurveyParticipationFlow.tsx:60-83 | a completion offered by the view on screen keeps the page reachable |
| ParticipationFlow.RunReachable | apps/web/src/components/survey/SurveyParticipationFlow.tsx:34-133 | any run of completions from a reachable state stays reachable, so the step never passes 4 |
| ChatInterface.Send | apps/web/src/components/survey/ChatInterface.tsx:30-45 | a blank input changes nothing and sends nothing; otherwise the user's message and an empty AI message are appended, the input is cleared, streaming starts and the typed text is placed in the request options |
| ChatInterface.ChatPanel.HandleSendMessage | apps/web/src/components/survey/ChatInterface.tsx:30-45 | the fields and request are exactly those of sending |
| ChatInterface.OnError | apps/web/src/components/survey/ChatInterface.tsx:64-68 | an error closes the source and stops streaming, and keeps the messages |
| ChatInterface.CompleteCloses | apps/web/src/components/survey/ChatInterface.tsx:59-62 | the completion event closes the source and stops streaming with the messages kept |
| ChatInterface.ClosedIgnores | apps/web/src/components/survey/ChatInterface.tsx:59-67 | a closed source delivers nothing |
| ChatInterface.EventWithoutDelta | apps/web/src/components/survey/ChatInterface.tsx:49 | a message without a non-empty delta changes nothing |
| ChatInterface.SendKeepsCoherent | apps/web/src/components/survey/ChatInterface.tsx:30-45 | sending keeps the panel coherent: streaming iff the source is open, and while open the last message shows the reply so far |
| ChatInterface.EventKeepsCoherent | apps/web/src/components/survey/ChatInterface.tsx:47-62 | every event keeps the panel coherent |
| ChatInterface.DeliverDeltas | apps/web/src/components/survey/ChatInterface.tsx:47-57 | a run of delta events leaves the last message and the reply equal to the earlier reply followed by the deltas in order |
| ChatInterface.ReplyShown | apps/web/src/components/survey/ChatInterface.tsx:30-62 | after sending a non-blank message and receiving the whole decoded reply stream, the panel holds the user's message and the 23 chunks joined in order, and is closed and idle |
| ChatInterface.ActKeepsCoherent | apps/web/src/components/survey/ChatInterface.tsx:95-106 | no user action or event breaks coherence, shrinks the message list or disables continue once enabled |
| ChatInterface.NoSendWhileStreaming | apps/web/src/components/survey/ChatInterface.tsx:97-101 | while streaming, typing, Enter and the send button change nothing |
| ChatInterface.ChatPanel.HandleEvent | apps/web/src/components/survey/ChatInterface.tsx:47-62 | the fields change exactly as the event transition says |
| ChatInterface.ChatPanel.HandleError | apps/web/src/components/survey/ChatInterface.tsx:64-68 | the fields change exactly as the error transition says |
| PeerEvaluation.VoteTypeText | apps/web/src/components/survey/PeerEvaluationStep.tsx:46 | the wire text is one of the four vote names |
| PeerEvaluation.VoteTypeTextInjective | apps/web/src/components/survey/PeerEvaluationStep.tsx:93-96 | the four buttons send four different vote types |
| PeerEvaluation.AfterLoad | apps/web/src/components/survey/PeerEvaluationStep.tsx:29-44 | a fetched queue replaces the queue; an error status shows "Failed to fetch voting queue"; a rejection shows its message or the unknown-error text; loading ends in every case |
| PeerEvaluation.VoteWithoutResponse | apps/web/src/components/survey/PeerEvaluationStep.tsx:47-48 | with no current response a vote sends nothing and changes nothing |
| PeerEvaluation.VoteRequest | apps/web/src/components/survey/PeerEvaluationStep.tsx:51-59 | a vote sends the current answer's id, the session and the chosen type |
| PeerEvaluation.VoteCounted | apps/web/src/components/survey/PeerEvaluationStep.tsx:60-67 | a vote that did not reject adds one to the count and moves to the next answer, or, on the last one, completes the step |
| PeerEvaluation.VoteRejected | apps/web/src/components/survey/PeerEvaluationStep.tsx:68-70 | a rejected vote shows the retry error and neither counts nor moves |
| PeerEvaluation.VoteKeepsCursorInRange | apps/web/src/components/survey/PeerEvaluationStep.tsx:62-64 | the cursor stays on an existing answer |
| PeerEvaluation.VoteRun | apps/web/src/components/survey/PeerEvaluationStep.tsx:46-71 | a run of clicks never changes the queue and adds at most one vote per click |
| PeerEvaluation.VotesCountResolved | apps/web/src/components/survey/PeerEvaluationStep.tsx:60-67 | every accepted vote cast from the cursor onward, up to the end of the queue, adds one to the count |
| PeerEvaluation.VotingThroughOpensGate | apps/web/src/components/survey/PeerEvaluationStep.tsx:82-104 | voting through the whole queue always opens the corrected continue gate |
| PeerEvaluation.GatesAgreeOnFullQueue | apps/web/src/components/survey/PeerEvaluationStep.tsx:82-104 | with at least three answers in the queue the corrected gate is the original one |
| PeerEvaluation.EmptyQueueBlocksContinue | apps/web/src/components/survey/PeerEvaluationStep.tsx:104 | with an empty or failed queue the original gate stays closed whatever is clicked, while the progress line asks for 0 votes |
| PeerEvaluation.EmptyQueueCanContinue | apps/web/src/components/survey/PeerEvaluationStep.tsx:82-104 | with an empty or failed queue the corrected gate is open |
| PeerEvaluation.PeerEvaluationStep.FetchQueue | apps/web/src/components/survey/PeerEvaluationStep.tsx:29-44 | the fields change exactly as the load transition says |
| PeerEvaluation.PeerEvaluationStep.HandleVote | apps/web/src/components/survey/PeerEvaluationStep.tsx:46-71 | the fields, the request and the completion signal are exactly the vote transition's |
| PeerEvaluation.PeerEvaluationStep.ContinueButtonEnabled | apps/web/src/components/survey/PeerEvaluationStep.tsx:104 | the button as written: enabled iff at least three votes are counted, and whenever it is enabled the progress target `min(3, queue length)` is met |
| PeerEvaluation.CorrectedContinueEnabled | apps/web/src/components/survey/PeerEvaluationStep.tsx:82-104 | the proposed gate, against the target the progress line shows: open whenever the button as written is, open on an empty queue, and the same as written once three or more answers are queued |
| OpinionDistribution.AfterFetch | apps/web/src/components/survey/OpinionDistributionStep.tsx:26-37 | fetched data replaces the distribution; an error status shows "Failed to fetch distribution data"; a rejection shows its message or the unknown-error text; loading ends in every case |
| OpinionDistribution.OnMessage | apps/web/src/components/survey/OpinionDistributionStep.tsx:47-52 | an update for this question replaces only the distribution with its snapshot; any other message changes nothing |
| OpinionDistribution.ShowsLastUpdate | apps/web/src/components/survey/OpinionDistributionStep.tsx:47-52 | after any run of messages the distribution is the last matching update's, or the earlier one when none matched |
| OpinionDistribution.ChartData | apps/web/src/components/survey/OpinionDistributionStep.tsx:60-62 | no distribution gives no bars; an object gives one bar per key, in the listed key order, named by the key and holding its value |
| OpinionDistribution.TotalResponses | apps/web/src/components/survey/OpinionDistributionStep.tsx:64 | the total exists iff every count is numeric, and then starts from 0 and adds each count |
| OpinionDistribution.TotalIgnoresOrder | apps/web/src/components/survey/OpinionDistributionStep.tsx:60-64 | the total does not depend on the order in which the keys are listed |
| OpinionDistribution.OpinionDistributionStep.FetchInitialData | apps/web/src/components/survey/OpinionDistributionStep.tsx:26-37 | the fields change exactly as the fetch transition says |
| OpinionDistribution.OpinionDistributionStep.HandleMessage | apps/web/src/components/survey/OpinionDistributionStep.tsx:47-52 | the fields change exactly as the message transition says |

## Left out

- Text.Lower: `toLowerCase` is modelled for ASCII letters only. Unicode case mapping has no counterpart here, so a slug from a non-ASCII title can differ.
- OpinionDistribution.TotalResponses: counts are exact reals, not IEEE doubles, so the sum never rounds. A total beyond 2^53 or of fractional counts could differ in JavaScript.
- OpinionDistribution.TotalIgnoresOrder: it holds for exact addition. JavaScript's `+` on doubles is not associative, so with counts where rounding occurs the order of keys could change the last digits.
- QuestionSchemas.ParseQuestion: numbers are exact reals, so `.int()` is "has no fractional part"; doubles too large to carry a fraction are not distinguished. The same holds for FeedbackSchema.ParseFeedback.
- Text.IsWhitespace: this is the ECMA-262 WhiteSpace and LineTerminator set as a fixed list. It does not track later Unicode space-separator additions.
- Surveys.SurveyService.CreateSurvey: the store's defaults for `status`, `publishedAt` and timestamps are not modelled; a new survey carries none. The database schema is not part of this model.
- Surveys.SurveyService.UpdateSurvey: the model returns the list of operations handed to `$transaction`. Running them, and rolling back the whole list when one fails, is left to the database.
- Surveys.SurveyService.PublishSurvey: `new Date()` is the parameter `now`.
- The schemas for responses, votes and sessions are imported by the services but are not part of this model. Their inputs are plain records.
- The controllers, routes, `main.ts`, the sessions and feedback services, the WebSocket broadcaster and the distribution aggregator are not modelled. They are outside the modelled core.
- ChatService.MockAiProvider.StreamResponse: the 50 ms timer, `PassThrough` buffering, `stream.end()` and a client disconnecting mid-stream are not modelled; the stream is the sequence of frames it writes.
- EventStream.DeltaOf: it recognises only the exact `{"delta":"…"}` text that `JSON.stringify` writes for chunks without quotes, backslashes or control characters. Any other JSON is treated as having no delta rather than being parsed in full.
- ChatInterface.Send: the `EventSource` options (method, headers, body) are not a transport the browser honours. The model records the text sent and treats the events as arriving on that source.
- ChatInterface: scrolling, the typing indicator and the `onComplete` callback are rendering only. The continue gate is `CanContinue`.
- ParticipationFlow.CompleteStep: at step 1 the handler's `data` is taken to be a baseline response with a justification. A missing `data` would throw in the source, and that is not modelled.
- ParticipationFlow: the step forms (baseline, reflection, final opinion, platform feedback) and the survey page that loads the survey are not modelled beyond the `onComplete` they call.
- PeerEvaluation.VoteRun: clicks are applied whatever is on screen. After a rejected vote the source hides the buttons, so the model allows more click sequences than the page does.
- OpinionDistribution.ChartData: `Object.entries` key order is a parameter, constrained only to list each key once. A distribution that is an array or string yields no bars rather than index entries.
- OpinionDistribution.TotalResponses: when a count is not a number, boolean or null, JavaScript's `+` would concatenate strings. The model gives no total instead.
- CreatePage.Save: the `isSaving` flag, `console.error` and `alert` as a dialog are not modelled; the alert is the text shown.
- QuestionList.DragEnd: `findIndex` returning -1 for an id not in the list is excluded by the precondition. dnd-kit only reports ids of listed items.
- React's asynchronous state updates, stale closures in handlers, effects re-running when props change, concurrent requests and the rendering itself (recharts, dnd-kit sensors, cards) are outside the model.

## Findings

| source | as written | input that shows it | evidently intended | confidence | as-written member | corrected member |
|---|---|---|---|---|---|---|
| apps/web/src/components/survey/PeerEvaluationStep.tsx:82-104 | the continue button is disabled while `votesSubmitted < MINIMUM_VOTES` (3), although the progress line asks for `Math.min(3, queue.length)` votes | the voting-queue fetch returns `[]` or fails: no vote can be cast, so continue is never enabled and the participant is stuck, while the progress line reads "0 of 0 votes needed" | enable continue when the count reaches `min(3, queue length)` | not executed | PeerEvaluation.EmptyQueueBlocksContinue | PeerEvaluation.CorrectedContinueEnabled |
