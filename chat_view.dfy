/** The chat page (app/chat/page.tsx): the state the page keeps (the draft
    message, the shown history, the loading, error and clearing flags, the
    robot's mood and the time of the last interaction) and how the history
    load, the inactivity timer, sending a message and clearing the memory
    change it. Time is an integer number of milliseconds passed in by the
    caller; each server answer is an outcome passed in as a value. */
module ChatView {
  import opened Common
  import opened Text
  import opened ChatRoute
  import opened RobotAvatar

  /** The robot goes to sleep after this many milliseconds without interaction. */
  const InactivityMs := 30000

  const LoadFailedText := "Erro ao carregar histórico"
  const AnswerFailedText := "Erro ao obter resposta"
  const ConnectionText := "Erro na conexão"
  const NotSignedInText := "Usuário não autenticado."
  const ClearFailedPrefix := "Erro ao limpar memória: "
  const ClearConnectionText := "Erro na conexão ao limpar memória."

  /** What the history query delivers: its rows (possibly null), or an error. */
  datatype LoadResult = Loaded(data: Option<seq<ChatEntry>>) | LoadFailed

  /** What `fetch('/api/ai/chat')` and `res.json()` deliver: an OK response with
      its `reply`, a non-OK response with its `error` field (possibly missing),
      or an exception (network failure or a body that is not JSON). */
  datatype SendResult = Ok(reply: string) | NotOk(error: Option<string>) | SendThrew

  /** What the delete of the user's messages delivers. */
  datatype DeleteResult = Deleted | DeleteFailed(message: string) | DeleteThrew

  /** The page's reading of a chat route response: `res.ok` holds exactly for
      the 200 reply, and a non-OK body carries the route's `error` text. */
  function Outcome(resp: ChatResponse): (o: SendResult)
    ensures o.Ok? <==> resp.Reply?
    ensures resp.Reply? ==> o.reply == resp.reply
    ensures resp.ErrorResponse? ==> o == NotOk(Some(resp.error))
  {
    match resp
    case Reply(r) => Ok(r)
    case ErrorResponse(_, e) => NotOk(Some(e))
  }

  /** The error text a failed send shows: the response's own `error` when it
      is a non-empty string, the generic text otherwise, the connection text
      after an exception. Never empty. */
  function SendError(result: SendResult): (e: string)
    requires !result.Ok?
    ensures e != ""
    ensures result.NotOk? && Present(result.error) ==> e == result.error.value
    ensures result.NotOk? && !Present(result.error) ==> e == AnswerFailedText
    ensures result.SendThrew? ==> e == ConnectionText
  {
    match result
    case NotOk(err) => if Present(err) then err.value else AnswerFailedText
    case SendThrew => ConnectionText
  }

  /** The two bubbles an answered send adds to the history. */
  function Exchange(sent: string, reply: string): seq<ChatEntry> {
    [ChatEntry(User, sent), ChatEntry(Assistant, reply)]
  }

  /** A successful turn: the two bubbles the page adds are the two rows the
      route wrote to the log, in the same order. */
  lemma PageMirrorsLog(rows: seq<MessageRow>, u: string, m: string, env: TurnEnv)
    requires u != "" && m != ""
    requires env.userInsertOk && env.assistantInsertOk && env.historyFault.None?
    requires env.complete(Sent(rows + [MessageRow(u, User, m)], u, env)).Completed?
    ensures var r := Turn(rows, Some(m), Some(u), env);
            && Outcome(r.response).Ok?
            && |r.rows| == |rows| + 2
            && Exchange(m, Outcome(r.response).reply) == [EntryOf(r.rows[|rows|]), EntryOf(r.rows[|rows| + 1])]
  {
    SuccessfulTurn(rows, u, m, env);
  }

  /** A failed turn: the page shows the route's own error text. */
  lemma PageShowsRouteError(rows: seq<MessageRow>, message: Option<string>, userId: Option<string>, env: TurnEnv)
    requires Turn(rows, message, userId, env).response.ErrorResponse?
    ensures var r := Turn(rows, message, userId, env);
            SendError(Outcome(r.response)) == r.response.error
  {
  }

  class ChatPage {
    /** The signed-in user's id from `useUserId`, null while there is none. */
    const userId: Option<string>
    var message: string
    var chatHistory: seq<ChatEntry>
    var loading: bool
    var error: string
    var clearing: bool
    var robotState: RobotState
    var lastInteractionTime: int

    /** The robot's error face comes with an error text. Every handler but
        `BeginClear` keeps this: `BeginClear` clears the text while the face
        stays until the delete settles. */
    ghost predicate ErrorShown()
      reads this
    {
      robotState == Error ==> error != ""
    }

    /** The initial `useState` values; `now` is `Date.now()` at mount. */
    constructor (userId: Option<string>, now: int)
      ensures this.userId == userId
      ensures message == "" && chatHistory == [] && !loading && error == "" && !clearing
      ensures robotState == Off && lastInteractionTime == now
      ensures ErrorShown()
    {
      this.userId := userId;
      message := "";
      chatHistory := [];
      loading := false;
      error := "";
      clearing := false;
      robotState := Off;
      lastInteractionTime := now;
    }

    /** Typing into the input box. */
    method SetMessage(text: string)
      modifies this
      ensures message == text
      ensures chatHistory == old(chatHistory) && loading == old(loading) && error == old(error)
      ensures clearing == old(clearing) && robotState == old(robotState)
      ensures lastInteractionTime == old(lastInteractionTime)
    {
      message := text;
    }

    /** The history-load effect, once its query has settled with `result`
        at time `now`. Without a user the effect returns at once. */
    method LoadHistory(result: LoadResult, now: int)
      modifies this
      ensures !Present(userId) ==> unchanged(this)
      ensures Present(userId) && result.LoadFailed? ==>
                error == LoadFailedText && robotState == Off
                && chatHistory == old(chatHistory) && lastInteractionTime == old(lastInteractionTime)
      ensures Present(userId) && result.Loaded? ==>
                chatHistory == result.data.GetOr([]) && robotState == Idle
                && lastInteractionTime == now && error == old(error)
      ensures message == old(message) && loading == old(loading) && clearing == old(clearing)
      ensures old(ErrorShown()) ==> ErrorShown()
    {
      if !Present(userId) {
        return;
      }
      if result.LoadFailed? {
        error := LoadFailedText;
        robotState := Off;
        return;
      }
      chatHistory := result.data.GetOr([]);
      robotState := Idle;
      lastInteractionTime := now;
    }

    /** One firing of the inactivity interval at time `now`. */
    method InactivityTick(now: int)
      modifies this
      ensures robotState == if now - lastInteractionTime > InactivityMs then Off else old(robotState)
      ensures message == old(message) && chatHistory == old(chatHistory) && loading == old(loading)
      ensures error == old(error) && clearing == old(clearing)
      ensures lastInteractionTime == old(lastInteractionTime)
      ensures old(ErrorShown()) ==> ErrorShown()
    {
      if now - lastInteractionTime > InactivityMs {
        robotState := Off;
      }
    }

    /** `sendMessage` up to its request: a blank draft or a missing user
        sends nothing and changes nothing; otherwise the page shows it is
        busy and `pending` is the text that goes out, as typed. */
    method BeginSend(now: int) returns (pending: Option<string>)
      modifies this
      ensures pending.None? <==> IsBlank(old(message)) || !Present(userId)
      ensures pending.None? ==> unchanged(this)
      ensures pending.Some? ==>
                pending.value == message && loading && error == "" && robotState == Thinking
                && lastInteractionTime == now
      ensures message == old(message) && chatHistory == old(chatHistory) && clearing == old(clearing)
      ensures old(ErrorShown()) ==> ErrorShown()
    {
      if Trim(message) == [] || !Present(userId) {
        return None;
      }
      loading := true;
      error := "";
      robotState := Thinking;
      lastInteractionTime := now;
      pending := Some(message);
    }

    /** `sendMessage` from its response on: `sent` is the text that went out
        and `result` what came back, at time `now`. Every path ends with
        `loading` off. */
    method FinishSend(sent: string, result: SendResult, now: int)
      modifies this
      ensures result.Ok? ==>
                chatHistory == old(chatHistory) + Exchange(sent, result.reply)
                && message == "" && robotState == Idle && error == old(error)
      ensures !result.Ok? ==>
                chatHistory == old(chatHistory) && message == old(message)
                && error == SendError(result) && robotState == Error
      ensures !loading && lastInteractionTime == now && clearing == old(clearing)
      ensures old(ErrorShown()) ==> ErrorShown()
    {
      if result.Ok? {
        chatHistory := chatHistory + Exchange(sent, result.reply);
        message := "";
        robotState := Idle;
      } else {
        error := SendError(result);
        robotState := Error;
      }
      loading := false;
      lastInteractionTime := now;
    }

    /** `clearMemory` up to its delete: without a user it only shows the
        sign-in error; if the user does not confirm it does nothing;
        otherwise it marks the page as clearing and `started` is true. */
    method BeginClear(confirmed: bool) returns (started: bool)
      modifies this
      ensures started <==> Present(userId) && confirmed
      ensures !Present(userId) ==> error == NotSignedInText
      ensures Present(userId) && !confirmed ==> error == old(error)
      ensures !started ==> clearing == old(clearing)
      ensures started ==> clearing && error == ""
      ensures message == old(message) && chatHistory == old(chatHistory) && loading == old(loading)
      ensures robotState == old(robotState) && lastInteractionTime == old(lastInteractionTime)
    {
      if !Present(userId) {
        error := NotSignedInText;
        return false;
      }
      if !confirmed {
        return false;
      }
      clearing := true;
      error := "";
      started := true;
    }

    /** `clearMemory` from the delete's outcome on: only a successful delete
        empties the history and puts the robot to sleep; a failure keeps the
        history and shows why. Every path ends with `clearing` off. */
    method FinishClear(result: DeleteResult)
      modifies this
      ensures result.Deleted? ==> chatHistory == [] && robotState == Off && error == old(error)
      ensures result.DeleteFailed? ==>
                chatHistory == old(chatHistory) && robotState == old(robotState)
                && error == ClearFailedPrefix + result.message
      ensures result.DeleteThrew? ==>
                chatHistory == old(chatHistory) && robotState == old(robotState)
                && error == ClearConnectionText
      ensures !clearing
      ensures message == old(message) && loading == old(loading)
      ensures lastInteractionTime == old(lastInteractionTime)
      ensures old(ErrorShown()) ==> ErrorShown()
    {
      match result {
        case Deleted =>
          chatHistory := [];
          robotState := Off;
        case DeleteFailed(m) =>
          error := ClearFailedPrefix + m;
        case DeleteThrew =>
          error := ClearConnectionText;
      }
      clearing := false;
    }
  }

  /** A whole `clearMemory` against the message log, the delete's error being
      `fault`: the user's rows go from the log exactly when the page empties
      its history and puts the robot to sleep, a failed delete shows its
      message, and the other users' rows stay. */
  method ClearMemory(page: ChatPage, log: MessageLog, confirmed: bool, fault: Option<string>)
    modifies page, log
    ensures !Present(page.userId) ==> page.error == NotSignedInText
    ensures Present(page.userId) && !confirmed ==> page.error == old(page.error)
    ensures !(Present(page.userId) && confirmed) ==>
              log.rows == old(log.rows) && page.clearing == old(page.clearing)
              && page.chatHistory == old(page.chatHistory) && page.robotState == old(page.robotState)
    ensures Present(page.userId) && confirmed && fault.None? ==>
              log.rows == WithoutUser(old(log.rows), page.userId.value)
              && page.chatHistory == [] && page.robotState == Off && page.error == ""
    ensures Present(page.userId) && confirmed && fault.Some? ==>
              log.rows == old(log.rows)
              && page.chatHistory == old(page.chatHistory) && page.robotState == old(page.robotState)
              && page.error == ClearFailedPrefix + fault.value
    ensures Present(page.userId) && confirmed ==> !page.clearing
    ensures page.message == old(page.message) && page.loading == old(page.loading)
    ensures page.lastInteractionTime == old(page.lastInteractionTime)
  {
    var started := page.BeginClear(confirmed);
    if !started {
      return;
    }
    var ok := log.DeleteUser(page.userId.value, fault);
    page.FinishClear(if ok then Deleted else DeleteFailed(fault.value));
  }

  /** A whole `sendMessage` against the chat route's log: the draft typed
      at `start` goes out as it is, and at `end` the page shows what the
      route answered. A blank draft or a missing user sends nothing. */
  method SendMessage(page: ChatPage, log: MessageLog, env: TurnEnv, start: int, end: int)
    modifies page, log
    ensures IsBlank(old(page.message)) || !Present(page.userId) ==>
              log.rows == old(log.rows)
              && page.message == old(page.message) && page.chatHistory == old(page.chatHistory)
              && page.loading == old(page.loading) && page.error == old(page.error)
              && page.robotState == old(page.robotState)
              && page.lastInteractionTime == old(page.lastInteractionTime)
    ensures !IsBlank(old(page.message)) && Present(page.userId) ==>
              var r := Turn(old(log.rows), Some(old(page.message)), page.userId, env);
              && log.rows == r.rows
              && (r.response.Reply? ==>
                    page.chatHistory == old(page.chatHistory) + Exchange(old(page.message), r.response.reply)
                    && page.message == "" && page.robotState == Idle && page.error == "")
              && (r.response.ErrorResponse? ==>
                    page.chatHistory == old(page.chatHistory) && page.message == old(page.message)
                    && page.error == r.response.error && page.robotState == Error)
              && !page.loading && page.lastInteractionTime == end
    ensures page.clearing == old(page.clearing)
  {
    var pending := page.BeginSend(start);
    if pending.None? {
      return;
    }
    var resp := log.Post(pending, page.userId, env);
    page.FinishSend(pending.value, Outcome(resp), end);
  }
}
