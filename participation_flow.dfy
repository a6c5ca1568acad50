/**
 * The participation page's step machine: a session is created when the page
 * opens, then the participant moves through the baseline opinion (step 1),
 * the chat (step 2) and the reflection (step 3) to the closing thank-you.
 */
module ParticipationFlow {
  import opened Wrappers
  import opened Fetch
  import opened QuestionSchemas

  datatype Session = Session(id: string, sessionKey: string)

  /** The baseline answer the first step hands over. */
  datatype BaselineResponse = BaselineResponse(id: string, likert: int, justification: string)

  datatype FlowState = FlowState(
    session: Option<Session>, baseline: Option<BaselineResponse>, chatId: Option<string>,
    step: nat, isLoading: bool, error: Option<string>)

  const Initial: FlowState := FlowState(None, None, None, 0, true, None)

  const SessionFailed: string := "Failed to create session"
  const ChatFailed: string := "Failed to start chat session"
  const ChatFallback: string := "Could not start chat."

  /** The session effect: on success the flow opens at step 1; otherwise the error is shown and the step stays. */
  function AfterSession(st: FlowState, outcome: FetchOutcome<Session>): (r: FlowState)
    ensures !r.isLoading && r.baseline == st.baseline && r.chatId == st.chatId
    ensures outcome.Fetched? ==> r.session == Some(outcome.value) && r.step == 1 && r.error == st.error
    ensures outcome.NotOk? ==> r.session == st.session && r.step == st.step && r.error == Some(SessionFailed)
    ensures outcome.Threw? ==>
      (r.session == st.session && r.step == st.step
       && r.error == Some(if outcome.message.Some? then outcome.message.value else UnknownError))
  {
    match outcome
    case Fetched(session) => st.(session := Some(session), step := 1, isLoading := false)
    case _ => st.(error := Some(CaughtMessage(outcome, SessionFailed, UnknownError)), isLoading := false)
  }

  /** The body of the chat-start request. */
  datatype ChatStart = ChatStart(sessionId: Option<string>, initialContext: string)

  /** What completing a step did: the new state and the chat-start request, if one was sent. */
  datatype Completion = Completion(state: FlowState, request: Option<ChatStart>)

  /**
   * `handleStepComplete`. At step 1, `data` is the baseline answer and
   * `chat` how the chat-start request ended (its decoded body is the new
   * chat's id); at the other steps both are ignored.
   */
  function CompleteStep(st: FlowState, data: BaselineResponse, chat: FetchOutcome<string>): (r: Completion)
  {
    if st.step == 1 then
      var recorded := st.(baseline := Some(data));
      var request := ChatStart(if st.session.Some? then Some(st.session.value.id) else None, data.justification);
      match chat
      case Fetched(id) => Completion(recorded.(chatId := Some(id), step := 2), Some(request))
      case _ => Completion(recorded.(error := Some(CaughtMessage(chat, ChatFailed, ChatFallback))), Some(request))
    else Completion(st.(step := st.step + 1), None)
  }

  /**
   * Completing the baseline records it and asks for a chat seeded with its
   * justification; the flow reaches the chat only when the chat starts.
   */
  lemma BaselineCompletion(st: FlowState, data: BaselineResponse, chat: FetchOutcome<string>)
    requires st.step == 1
    ensures var r := CompleteStep(st, data, chat);
      && r.state.baseline == Some(data)
      && r.request.Some? && r.request.value.initialContext == data.justification
      && (st.session.Some? ==> r.request.value.sessionId == Some(st.session.value.id))
      && (r.state.step == 2 <==> chat.Fetched?)
      && (chat.Fetched? ==> r.state.chatId == Some(chat.value) && r.state.error == st.error)
      && (!chat.Fetched? ==> r.state.step == 1 && r.state.chatId == st.chatId && r.state.error.Some?)
      && (chat.NotOk? ==> r.state.error == Some(ChatFailed))
      && (chat.Threw? && chat.message.None? ==> r.state.error == Some(ChatFallback))
  {
  }

  /** Any other step simply moves on by one and sends nothing. */
  lemma OtherCompletion(st: FlowState, data: BaselineResponse, chat: FetchOutcome<string>)
    requires st.step != 1
    ensures CompleteStep(st, data, chat) == Completion(st.(step := st.step + 1), None)
  {
  }

  /** No completion moves the flow backwards or skips a step. */
  lemma CompletionMonotone(st: FlowState, data: BaselineResponse, chat: FetchOutcome<string>)
    ensures var s := CompleteStep(st, data, chat).state.step;
      s == st.step || s == st.step + 1
    ensures CompleteStep(st, data, chat).state.step == st.step <==> st.step == 1 && !chat.Fetched?
  {
  }

  /** What `renderCurrentStep` and the guards before it show. */
  datatype View =
    | Loading
    | ErrorView(message: string)
    | NoSession
    | BaselineStep(question: Question)
    | NoQuestions
    | StartingChat
    | ChatStep(chatId: string)
    | NoBaseline
    | ReflectionStep(original: BaselineResponse)
    | ThankYou(step: nat)

  function Render(st: FlowState, questions: seq<Question>): (v: View)
    ensures st.isLoading ==> v == Loading
    ensures !st.isLoading && st.error.Some? ==> v == ErrorView(st.error.value)
    ensures !st.isLoading && st.error.None? && st.session.None? ==> v == NoSession
    ensures v.BaselineStep? <==> Shown(st) && st.step == 1 && |questions| > 0
    ensures v.BaselineStep? ==> v.question == questions[0]
    ensures v.ChatStep? <==> Shown(st) && st.step == 2 && st.chatId.Some?
    ensures v.ChatStep? ==> v.chatId == st.chatId.value
    ensures v.ReflectionStep? <==> Shown(st) && st.step == 3 && st.baseline.Some?
    ensures v.ReflectionStep? ==> v.original == st.baseline.value
    ensures v.ThankYou? <==> Shown(st) && st.step !in {1, 2, 3}
  {
    if st.isLoading then Loading
    else if st.error.Some? then ErrorView(st.error.value)
    else if st.session.None? then NoSession
    else if st.step == 1 then (if |questions| > 0 then BaselineStep(questions[0]) else NoQuestions)
    else if st.step == 2 then (if st.chatId.Some? then ChatStep(st.chatId.value) else StartingChat)
    else if st.step == 3 then (if st.baseline.Some? then ReflectionStep(st.baseline.value) else NoBaseline)
    else ThankYou(st.step)
  }

  /** Past the guards: loaded, no error, and a session. */
  predicate Shown(st: FlowState)
  {
    !st.isLoading && st.error.None? && st.session.Some?
  }

  /** The views that offer `onComplete`: only from these can a step be completed. */
  predicate Interactive(v: View)
  {
    v.BaselineStep? || v.ChatStep? || v.ReflectionStep?
  }

  /** What every state the page can reach satisfies. */
  predicate Reachable(st: FlowState)
  {
    && st.step <= 4
    && (st.step >= 1 ==> st.session.Some? && !st.isLoading)
    && (st.step >= 2 ==> st.chatId.Some? && st.baseline.Some?)
    && (st.step == 0 && !st.isLoading ==> st.error.Some?)
  }

  lemma InitialReachable(outcome: FetchOutcome<Session>)
    ensures Reachable(Initial) && Reachable(AfterSession(Initial, outcome))
  {
  }

  lemma CompletionKeepsReachable(st: FlowState, questions: seq<Question>, data: BaselineResponse, chat: FetchOutcome<string>)
    requires Reachable(st) && Interactive(Render(st, questions))
    ensures Reachable(CompleteStep(st, data, chat).state)
  {
  }

  /**
   * A reachable page never shows the fallbacks for a missing session, chat
   * or baseline: those guards cannot fire.
   */
  lemma ReachableViews(st: FlowState, questions: seq<Question>)
    requires Reachable(st)
    ensures Render(st, questions) !in {NoSession, StartingChat, NoBaseline}
  {
  }

  /** One thing that can happen to the page after it opens: a step completes, with its data and chat outcome. */
  datatype StepEvent = StepEvent(data: BaselineResponse, chat: FetchOutcome<string>)

  /** The page after its session effect and a run of completions, each offered by the view shown at the time. */
  function Run(st: FlowState, questions: seq<Question>, events: seq<StepEvent>): (r: FlowState)
    ensures r.step >= st.step
    decreases |events|
  {
    if events == [] || !Interactive(Render(st, questions)) then st
    else Run(CompleteStep(st, events[0].data, events[0].chat).state, questions, events[1..])
  }

  /** Every page state reached from opening the page is reachable, and the step never exceeds the thank-you. */
  lemma {:induction false} RunReachable(st: FlowState, questions: seq<Question>, events: seq<StepEvent>)
    requires Reachable(st)
    ensures Reachable(Run(st, questions, events))
    decreases |events|
  {
    if events != [] && Interactive(Render(st, questions)) {
      CompletionKeepsReachable(st, questions, events[0].data, events[0].chat);
      RunReachable(CompleteStep(st, events[0].data, events[0].chat).state, questions, events[1..]);
    }
  }

  /** The component's state fields, updated in place by its effect and handler. */
  class SurveyParticipationFlow {
    const questions: seq<Question>
    var session: Option<Session>
    var baseline: Option<BaselineResponse>
    var chatId: Option<string>
    var step: nat
    var isLoading: bool
    var error: Option<string>

    function State(): FlowState
      reads this
    {
      FlowState(session, baseline, chatId, step, isLoading, error)
    }

    constructor (questions: seq<Question>)
      ensures this.questions == questions && State() == Initial
    {
      this.questions := questions;
      session, baseline, chatId, step, isLoading, error := None, None, None, 0, true, None;
    }

    /** The effect's `createSession`. */
    method CreateSession(outcome: FetchOutcome<Session>)
      modifies this
      ensures State() == AfterSession(old(State()), outcome)
    {
      if outcome.Fetched? {
        session := Some(outcome.value);
        step := 1;
      } else {
        error := Some(CaughtMessage(outcome, SessionFailed, UnknownError));
      }
      isLoading := false;
    }

    /** `handleStepComplete`, returning the chat-start request it sent. */
    method HandleStepComplete(data: BaselineResponse, chat: FetchOutcome<string>) returns (request: Option<ChatStart>)
      modifies this
      ensures Completion(State(), request) == CompleteStep(old(State()), data, chat)
    {
      if step == 1 {
        baseline := Some(data);
        request := Some(ChatStart(if session.Some? then Some(session.value.id) else None, data.justification));
        if chat.Fetched? {
          chatId := Some(chat.value);
          step := 2;
        } else {
          error := Some(CaughtMessage(chat, ChatFailed, ChatFallback));
        }
      } else {
        step := step + 1;
        request := None;
      }
    }
  }
}
