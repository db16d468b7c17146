/**
 * The Microsoft.Extensions.AI / Microsoft.Agents.AI values the samples pass
 * around (messages, run requests and responses), and the code outside the
 * model that they call (agents, chat clients, tools).
 */
module Chat {
  import opened Common

  datatype Role = System | User | Assistant | Tool

  datatype FunctionCall = FunctionCall(callId: string, name: string)

  /** The parts of a message that the samples look at; the others carry no text. */
  datatype Content =
    | TextContent(text: string)
    | FunctionApprovalResponseContent(requestId: string, approved: bool, functionCall: FunctionCall)
    | OtherContent(kind: string)

  datatype ChatMessage = ChatMessage(role: Role, contents: seq<Content>, messageId: Option<string>) {
    /**
     * ChatMessage.Text: the text of its text contents, in order; a single
     * text content is the text, and a message without one has none.
     */
    function Text(): (r: string)
      ensures |contents| == 1 && contents[0].TextContent? ==> r == contents[0].text
      ensures (forall i :: 0 <= i < |contents| ==> !contents[i].TextContent?) ==> r == []
    {
      TextOf(contents)
    }
  }

  function TextOf(contents: seq<Content>): (r: string)
    ensures (forall i :: 0 <= i < |contents| ==> !contents[i].TextContent?) ==> r == []
  {
    if contents == [] then []
    else (if contents[0].TextContent? then contents[0].text else []) + TextOf(contents[1..])
  }

  /** new ChatMessage(role, text): one text content and no message id. */
  function TextMessage(role: Role, text: string): (m: ChatMessage)
    ensures m.role == role && m.Text() == text && m.messageId == None
  {
    ChatMessage(role, [TextContent(text)], None)
  }

  /** An agent thread, represented by the state its Serialize call produces. */
  datatype AgentThread = AgentThread(state: Json)

  /** A ResponseContinuationToken: the handle of a background response still running. */
  datatype ContinuationToken = ContinuationToken(data: string)

  datatype RunOptions = RunOptions(allowBackgroundResponses: bool, continuationToken: Option<ContinuationToken>)

  /** The user-input requests a response can carry; only function approvals are answered. */
  datatype UserInputRequest =
    | FunctionApprovalRequest(id: string, functionCall: FunctionCall)
    | OtherInputRequest(id: string)

  /** The arguments of one AIAgent.RunAsync call. */
  datatype RunRequest = RunRequest(messages: seq<ChatMessage>, thread: Option<AgentThread>, options: Option<RunOptions>)

  /**
   * What one run gives back. RunAsync also updates the thread it was given;
   * `threadState` is that thread's serialized state once the run is over.
   */
  datatype AgentRunResponse = AgentRunResponse(
    messages: seq<ChatMessage>,
    userInputRequests: seq<UserInputRequest>,
    continuationToken: Option<ContinuationToken>,
    threadState: Json)

  /** The thread a run was given, as the run has left it. */
  function ThreadAfter(response: AgentRunResponse): (thread: AgentThread)
    ensures thread.state == response.threadState
  {
    AgentThread(response.threadState)
  }

  datatype ChatOptions = ChatOptions(tools: seq<string>)

  /** The arguments of one IChatClient.GetResponseAsync call. */
  datatype ChatRequest = ChatRequest(messages: seq<ChatMessage>, options: Option<ChatOptions>)

  datatype ChatResponse = ChatResponse(messages: seq<ChatMessage>)

  /**
   * Code the samples call but do not contain: an agent, a chat client, the
   * next step of a function invocation. Its answer to a call may depend on
   * every request it has received so far; `log` records them in order.
   */
  class Collaborator<Req, Resp> {
    const reply: seq<Req> -> Resp
    var log: seq<Req>

    constructor (reply: seq<Req> -> Resp)
      ensures this.reply == reply && log == []
    {
      this.reply := reply;
      log := [];
    }

    method Call(request: Req) returns (response: Resp)
      modifies this
      ensures log == old(log) + [request]
      ensures response == reply(log)
    {
      log := log + [request];
      response := reply(log);
    }
  }
}
