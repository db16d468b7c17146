/**
 * The function-approval sample: the agent's GetNews tool needs a human's
 * approval, so after each run every pending function-approval request is
 * answered from the console and the answers are sent back on the same
 * thread, until a response asks for nothing more.
 */
module FunctionApprovals {
  import opened Common
  import opened Text
  import opened Chat

  const Question := "美国的最新新闻是什么？"
  const NewsPrefix := "来自 "
  const NewsSuffix := " 的头条新闻：AI 正在革新软件开发领域。"

  /** GetNews: a fixed headline naming the country. */
  function GetNews(country: string): (headline: string)
    ensures |headline| == |NewsPrefix| + |country| + |NewsSuffix|
    ensures headline[|NewsPrefix|..|NewsPrefix| + |country|] == country
  {
    NewsPrefix + country + NewsSuffix
  }

  /** The country can be read back from its headline, so different countries get different headlines. */
  lemma GetNewsNamesCountry(a: string, b: string)
    ensures GetNews(a) == GetNews(b) <==> a == b
    ensures Contains(GetNews(a), a)
  {
    if GetNews(a) == GetNews(b) {
      assert |a| == |b|;
      assert a == GetNews(a)[|NewsPrefix|..|NewsPrefix| + |a|];
    }
    ContainsAt(GetNews(a), a, |NewsPrefix|);
  }

  /**
   * Console.ReadLine()?.Equals("Y", StringComparison.OrdinalIgnoreCase) ?? false:
   * approval is a line reading "Y" or "y", nothing else; end of input denies.
   */
  predicate Approves(line: Option<string>): (r: bool)
    ensures r <==> line == Some("Y") || line == Some("y")
  {
    assert EqualsIgnoreCase("Y", "Y") && EqualsIgnoreCase("y", "Y");
    assert line.Some? && EqualsIgnoreCase(line.value, "Y") ==> line.value == [line.value[0]];
    line.Some? && EqualsIgnoreCase(line.value, "Y")
  }

  /** The console the answers are typed on: the lines still to be read. */
  class ConsoleInput {
    var lines: seq<string>

    constructor (lines: seq<string>)
      ensures this.lines == lines
    {
      this.lines := lines;
    }

    /** Console.ReadLine: the next line, or null at the end of input. */
    method ReadLine() returns (line: Option<string>)
      modifies this
      ensures old(lines) == [] ==> line == None && lines == []
      ensures old(lines) != [] ==> line == Some(old(lines)[0]) && lines == old(lines)[1..]
    {
      if lines == [] {
        line := None;
      } else {
        line := Some(lines[0]);
        lines := lines[1..];
      }
    }
  }

  /** OfType<FunctionApprovalRequestContent>: the function-approval requests, in order. */
  function ApprovalRequests(requests: seq<UserInputRequest>): (approvals: seq<UserInputRequest>)
    ensures |approvals| <= |requests|
    ensures forall i :: 0 <= i < |approvals| ==> approvals[i].FunctionApprovalRequest? && approvals[i] in requests
    ensures forall r :: r in requests && r.FunctionApprovalRequest? ==> r in approvals
    decreases |requests|
  {
    if requests == [] then []
    else if requests[0].FunctionApprovalRequest? then [requests[0]] + ApprovalRequests(requests[1..])
    else ApprovalRequests(requests[1..])
  }

  /**
   * The filter works piecewise, so it keeps the approval requests in their
   * order: those of a list before those of a list after it.
   */
  lemma {:induction false} ApprovalRequestsKeepOrder(a: seq<UserInputRequest>, b: seq<UserInputRequest>)
    ensures ApprovalRequests(a + b) == ApprovalRequests(a) + ApprovalRequests(b)
    decreases |a|
  {
    if a == [] {
      assert a + b == b;
    } else {
      assert (a + b)[0] == a[0];
      assert (a + b)[1..] == a[1..] + b;
      ApprovalRequestsKeepOrder(a[1..], b);
    }
  }

  /** request.CreateResponse(approved), sent as the only content of a User message. */
  function ApprovalMessage(request: UserInputRequest, approved: bool): (m: ChatMessage)
    requires request.FunctionApprovalRequest?
    ensures m.role == User && |m.contents| == 1
    ensures m.contents[0].FunctionApprovalResponseContent? && m.contents[0].requestId == request.id
            && m.contents[0].approved == approved
  {
    ChatMessage(User, [FunctionApprovalResponseContent(request.id, approved, request.functionCall)], None)
  }

  /** What the i-th ReadLine returns on a console holding `lines`. */
  function Answer(lines: seq<string>, i: nat): Option<string> {
    if i < |lines| then Some(lines[i]) else None
  }

  /** Each message answers the matching approval request, and only those. */
  predicate AnswersApprovals(messages: seq<ChatMessage>, requests: seq<UserInputRequest>) {
    var approvals := ApprovalRequests(requests);
    |messages| == |approvals|
    && forall j :: 0 <= j < |messages| ==>
         |messages[j].contents| == 1 && messages[j].contents[0].FunctionApprovalResponseContent?
         && messages[j] == ApprovalMessage(approvals[j], messages[j].contents[0].approved)
  }

  /**
   * The Select over the approval requests: for each, in order, a line is read
   * and the request is approved exactly when the line is "Y", ignoring case.
   */
  method CollectApprovals(requests: seq<UserInputRequest>, console: ConsoleInput) returns (responses: seq<ChatMessage>)
    modifies console
    ensures var approvals := ApprovalRequests(requests);
            && |responses| == |approvals|
            && (forall j :: 0 <= j < |responses| ==>
                  responses[j] == ApprovalMessage(approvals[j], Approves(Answer(old(console.lines), j))))
            && console.lines == Unread(old(console.lines), |approvals|)
    ensures AnswersApprovals(responses, requests)
  {
    var approvals := ApprovalRequests(requests);
    ghost var input := console.lines;
    responses := [];
    for j := 0 to |approvals|
      invariant |responses| == j
      invariant forall k :: 0 <= k < j ==> responses[k] == ApprovalMessage(approvals[k], Approves(Answer(input, k)))
      invariant console.lines == Unread(input, j)
    {
      ghost var pending := console.lines;
      var line := console.ReadLine();
      assert line == Answer(input, j) by {
        if j < |input| {
          assert pending == input[j..] && pending[0] == input[j];
        } else {
          assert pending == [];
        }
      }
      responses := responses + [ApprovalMessage(approvals[j], Approves(line))];
    }
  }

  function Min(a: int, b: int): int { if a <= b then a else b }

  /** What is left on a console holding `lines` once `n` lines have been read. */
  function Unread(lines: seq<string>, n: nat): (rest: seq<string>)
    ensures |rest| == |lines| - Min(n, |lines|)
  {
    lines[Min(n, |lines|)..]
  }

  /** The i-th line read from the console once `consumed` lines have been read from `lines`. */
  lemma AnswerAfter(lines: seq<string>, consumed: nat, i: nat)
    ensures Answer(Unread(lines, consumed), i) == Answer(lines, consumed + i)
  {
  }

  /**
   * Answers read from what is left of `lines` after `consumed` lines are the
   * answers read from `lines` from `consumed` on.
   */
  lemma AnsweredFromConsole(messages: seq<ChatMessage>, requests: seq<UserInputRequest>, lines: seq<string>, consumed: nat)
    requires var approvals := ApprovalRequests(requests);
             && |messages| == |approvals|
             && forall j :: 0 <= j < |messages| ==>
                  messages[j] == ApprovalMessage(approvals[j], Approves(Answer(Unread(lines, consumed), j)))
    ensures AnswersFrom(messages, requests, lines, consumed)
  {
    forall j | 0 <= j < |messages|
      ensures Answer(Unread(lines, consumed), j) == Answer(lines, consumed + j)
    {
      AnswerAfter(lines, consumed, j);
    }
  }

  /** Reading `n` more lines after `consumed` leaves what reading `consumed + n` would. */
  lemma SkipAfter(lines: seq<string>, consumed: nat, n: nat)
    ensures Unread(Unread(lines, consumed), n) == Unread(lines, consumed + n)
  {
  }

  /** The opening run: the question on the thread, no options. */
  function FirstRequest(thread: AgentThread): (r: RunRequest)
    ensures r.messages == [TextMessage(User, Question)] && r.thread == Some(thread) && r.options == None
  {
    RunRequest([TextMessage(User, Question)], Some(thread), None)
  }

  /**
   * The number of console lines read once the requests of `sent` from
   * `start` on have gone out: one for every approval request of every
   * response that a later request answered.
   */
  ghost function LinesRead(reply: seq<RunRequest> -> AgentRunResponse, sent: seq<RunRequest>, start: nat): nat
    requires start < |sent|
    decreases |sent|
  {
    if |sent| == start + 1 then 0
    else
      var before := sent[..|sent| - 1];
      LinesRead(reply, before, start) + |ApprovalRequests(reply(before).userInputRequests)|
  }

  /**
   * The messages answer the approval requests among `requests`, in order:
   * the j-th approves its request exactly when the (offset + j)-th line of
   * the console is "Y" or "y".
   */
  ghost predicate AnswersFrom(messages: seq<ChatMessage>, requests: seq<UserInputRequest>, lines: seq<string>, offset: nat) {
    var approvals := ApprovalRequests(requests);
    |messages| == |approvals|
    && forall j :: 0 <= j < |messages| ==> messages[j] == ApprovalMessage(approvals[j], Approves(Answer(lines, offset + j)))
  }

  /**
   * The request at index `i` answers the response before it: that response
   * had user-input requests, and the request carries the answers to its
   * approval requests, decided by the console lines not read before, on the
   * thread as that run left it.
   */
  ghost predicate AnswersPrevious(reply: seq<RunRequest> -> AgentRunResponse, log: seq<RunRequest>, start: nat,
                                  lines0: seq<string>, i: nat)
    requires start < i < |log|
  {
    var previous := reply(log[..i]);
    && previous.userInputRequests != []
    && log[i].thread == Some(ThreadAfter(previous)) && log[i].options == None
    && AnswersFrom(log[i].messages, previous.userInputRequests, lines0, LinesRead(reply, log[..i], start))
  }

  /** Every request after the one at `start` answers the response before it. */
  ghost predicate AnswersSince(reply: seq<RunRequest> -> AgentRunResponse, log: seq<RunRequest>, start: nat, lines0: seq<string>) {
    forall i :: start < i < |log| ==> AnswersPrevious(reply, log, start, lines0, i)
  }

  /**
   * What the requests from `start` on and the console say about a run in
   * progress: the question first, then only answers to the response before,
   * each decided by the next unread lines of `lines0`; `lines` is what is
   * left unread.
   */
  ghost predicate ApprovalHistory(reply: seq<RunRequest> -> AgentRunResponse, log: seq<RunRequest>, start: nat,
                                  thread: AgentThread, lines0: seq<string>, lines: seq<string>) {
    && start < |log|
    && log[start] == FirstRequest(thread)
    && AnswersSince(reply, log, start, lines0)
    && lines == Unread(lines0, LinesRead(reply, log, start))
  }

  /** A request answering the latest response extends the answers. */
  lemma AnswersSinceExtend(reply: seq<RunRequest> -> AgentRunResponse, log: seq<RunRequest>, start: nat,
                           lines0: seq<string>, request: RunRequest)
    requires start < |log| && AnswersSince(reply, log, start, lines0)
    requires reply(log).userInputRequests != []
    requires request.thread == Some(ThreadAfter(reply(log))) && request.options == None
    requires AnswersFrom(request.messages, reply(log).userInputRequests, lines0, LinesRead(reply, log, start))
    ensures AnswersSince(reply, log + [request], start, lines0)
  {
    var log' := log + [request];
    assert log'[..|log|] == log;
    forall i | start < i < |log'|
      ensures AnswersPrevious(reply, log', start, lines0, i)
    {
      if i < |log| {
        assert AnswersPrevious(reply, log, start, lines0, i);
        assert log'[..i] == log[..i] && log'[i] == log[i];
      }
    }
  }

  /**
   * Answering the latest response's approval requests with the next lines
   * of the console, on the thread as that run left it, extends the history.
   */
  lemma ApprovalHistoryExtend(reply: seq<RunRequest> -> AgentRunResponse, log: seq<RunRequest>, start: nat,
                              thread: AgentThread, lines0: seq<string>, lines: seq<string>, answers: seq<ChatMessage>,
                              lines': seq<string>)
    requires ApprovalHistory(reply, log, start, thread, lines0, lines)
    requires reply(log).userInputRequests != []
    requires var approvals := ApprovalRequests(reply(log).userInputRequests);
             && |answers| == |approvals|
             && forall j :: 0 <= j < |answers| ==> answers[j] == ApprovalMessage(approvals[j], Approves(Answer(lines, j)))
    requires lines' == Unread(lines, |ApprovalRequests(reply(log).userInputRequests)|)
    ensures ApprovalHistory(reply, log + [RunRequest(answers, Some(ThreadAfter(reply(log))), None)], start, thread, lines0, lines')
  {
    var requests := reply(log).userInputRequests;
    var read := LinesRead(reply, log, start);
    var log' := log + [RunRequest(answers, Some(ThreadAfter(reply(log))), None)];
    AnsweredFromConsole(answers, requests, lines0, read);
    SkipAfter(lines0, read, |ApprovalRequests(requests)|);
    AnswersSinceExtend(reply, log, start, lines0, log'[|log|]);
    assert log'[..|log|] == log;
    assert LinesRead(reply, log', start) == read + |ApprovalRequests(requests)|;
  }

  /**
   * One pass of the loop: a line is read for each approval request of the
   * latest response, and the answers are sent on the thread as that run
   * left it. The run updates the thread, which is returned.
   */
  method AnswerAndRun(agent: Collaborator<RunRequest, AgentRunResponse>, console: ConsoleInput, thread: AgentThread,
                      ghost start: nat, ghost first: AgentThread, ghost lines0: seq<string>)
    returns (thread': AgentThread, response: AgentRunResponse)
    requires ApprovalHistory(agent.reply, agent.log, start, first, lines0, console.lines)
    requires thread == ThreadAfter(agent.reply(agent.log)) && agent.reply(agent.log).userInputRequests != []
    modifies agent, console
    ensures |agent.log| == |old(agent.log)| + 1 && agent.log[..|old(agent.log)|] == old(agent.log)
    ensures response == agent.reply(agent.log) && thread' == ThreadAfter(response)
    ensures ApprovalHistory(agent.reply, agent.log, start, first, lines0, console.lines)
  {
    var requests := agent.reply(agent.log).userInputRequests;
    ghost var pending := console.lines;
    var userInputResponses := CollectApprovals(requests, console);
    ApprovalHistoryExtend(agent.reply, agent.log, start, first, lines0, pending, userInputResponses, console.lines);
    var request := RunRequest(userInputResponses, Some(thread), None);
    response := agent.Call(request);
    thread' := ThreadAfter(response);
  }

  /**
   * The sample's main flow: the question is asked on a new thread, and while
   * the latest response carries user-input requests the approval answers
   * read from the console (and nothing else) are sent on the thread. Each
   * run updates the thread it is given, so `current` follows the thread's
   * state from run to run. `limit` bounds the number of calls after which
   * the agent asks for nothing more; the sample itself relies on that.
   */
  method RunWithApprovals(agent: Collaborator<RunRequest, AgentRunResponse>, console: ConsoleInput,
                          thread: AgentThread, ghost limit: nat)
    returns (response: AgentRunResponse)
    requires forall h :: |h| >= limit ==> agent.reply(h).userInputRequests == []
    modifies agent, console
    ensures response == agent.reply(agent.log) && response.userInputRequests == []
    ensures |agent.log| > |old(agent.log)| && agent.log[..|old(agent.log)|] == old(agent.log)
    ensures ApprovalHistory(agent.reply, agent.log, |old(agent.log)|, thread, old(console.lines), console.lines)
  {
    ghost var start := |agent.log|;
    ghost var lines0 := console.lines;
    response := agent.Call(FirstRequest(thread));
    var current := ThreadAfter(response);
    var userInputRequests := response.userInputRequests;
    while |userInputRequests| > 0
      invariant userInputRequests == response.userInputRequests
      invariant response == agent.reply(agent.log) && current == ThreadAfter(response)
      invariant |agent.log| > start && agent.log[..start] == old(agent.log)
      invariant ApprovalHistory(agent.reply, agent.log, start, thread, lines0, console.lines)
      decreases limit - |agent.log|
    {
      ghost var before := agent.log;
      current, response := AnswerAndRun(agent, console, current, start, thread, lines0);
      userInputRequests := response.userInputRequests;
      assert agent.log[..start] == before[..start];
    }
  }
}
