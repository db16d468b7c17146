/**
 * The background-response sample: a long agent run is started with
 * background responses allowed and then polled with its continuation token;
 * before every poll the thread and the token are persisted to a state store
 * and restored from it. The tools the agent is given are in BackgroundTools.
 */
module BackgroundResponse {
  import opened Common
  import opened Text
  import opened Chat

  const ThreadEntry := "thread"
  const TokenEntry := "continuationToken"
  const NoThreadMessage := "No serialized thread found in state store."
  const TokenFormatMessage := "The JSON value could not be converted to ResponseContinuationToken."
  const NovelPrompt := "写一部篇幅非常长的小说，内容是关于一支宇航员团队探索一片未知星系的故事。"

  // ----- Persisting and restoring the agent state -----

  /** Reading back a serialized continuation token: JSON null is the null token. */
  function TokenFromJson(serialized: Option<Json>): (r: Result<Option<ContinuationToken>>)
    ensures serialized == None || serialized == Some(JNull) ==> r == Ok(None)
    ensures r.Ok? && r.value.Some? ==> serialized == Some(JString(r.value.value.data))
    ensures serialized.Some? && !serialized.value.JNull? && !serialized.value.JString? ==>
              r == Err(JsonFormat(TokenFormatMessage))
  {
    match serialized
    case None => Ok(None)
    case Some(JNull) => Ok(None)
    case Some(JString(data)) => Ok(Some(ContinuationToken(data)))
    case Some(_) => Err(JsonFormat(TokenFormatMessage))
  }

  /** JsonSerializer.SerializeToElement of a continuation token, which reads back as the same token. */
  function TokenToJson(token: Option<ContinuationToken>): (j: Json)
    ensures TokenFromJson(Some(j)) == Ok(token)
  {
    match token
    case None => JNull
    case Some(t) => JString(t.data)
  }

  /** The state store after PersistAgentState(thread, token). */
  function Persisted(entries: map<string, Option<Json>>, thread: AgentThread, token: Option<ContinuationToken>): (r: map<string, Option<Json>>)
    ensures ThreadEntry in r && r[ThreadEntry] == Some(thread.state)
    ensures TokenEntry in r && TokenFromJson(r[TokenEntry]) == Ok(token)
  {
    entries[ThreadEntry := Some(thread.state)][TokenEntry := Some(TokenToJson(token))]
  }

  /**
   * RestoreAgentState: a missing entry throws KeyNotFoundException, a null
   * thread entry InvalidOperationException (before the token is looked at),
   * and the token is deserialized when present.
   */
  function Restored(entries: map<string, Option<Json>>): (r: Result<(AgentThread, Option<ContinuationToken>)>)
    ensures ThreadEntry !in entries ==> r == Err(KeyNotFound(ThreadEntry))
    ensures ThreadEntry in entries && entries[ThreadEntry].None? ==> r == Err(InvalidOperation(NoThreadMessage, None))
    ensures ThreadEntry in entries && entries[ThreadEntry].Some? && TokenEntry !in entries ==>
              r == Err(KeyNotFound(TokenEntry))
    ensures ThreadEntry in entries && entries[ThreadEntry].Some? && TokenEntry in entries &&
            TokenFromJson(entries[TokenEntry]).Err? ==>
              r == Err(TokenFromJson(entries[TokenEntry]).error)
    ensures r.Ok? <==> && ThreadEntry in entries && entries[ThreadEntry].Some?
                       && TokenEntry in entries && TokenFromJson(entries[TokenEntry]).Ok?
    ensures r.Ok? ==> r.value.0 == AgentThread(entries[ThreadEntry].value)
                      && r.value.1 == TokenFromJson(entries[TokenEntry]).value
  {
    if ThreadEntry !in entries then Err(KeyNotFound(ThreadEntry))
    else if entries[ThreadEntry].None? then Err(InvalidOperation(NoThreadMessage, None))
    else if TokenEntry !in entries then Err(KeyNotFound(TokenEntry))
    else
      var token :- TokenFromJson(entries[TokenEntry]);
      Ok((AgentThread(entries[ThreadEntry].value), token))
  }

  /** Restoring what was just persisted gives back the thread and the token. */
  lemma RestoreAfterPersist(entries: map<string, Option<Json>>, thread: AgentThread, token: Option<ContinuationToken>)
    ensures Restored(Persisted(entries, thread, token)) == Ok((thread, token))
  {
    var p := Persisted(entries, thread, token);
    assert p[ThreadEntry] == Some(thread.state);
    assert p[TokenEntry] == Some(TokenToJson(token));
  }

  /** Persisting writes the two entries and no others. */
  lemma PersistLeavesOthers(entries: map<string, Option<Json>>, thread: AgentThread, token: Option<ContinuationToken>, key: string)
    requires key != ThreadEntry && key != TokenEntry
    ensures key in Persisted(entries, thread, token) <==> key in entries
    ensures key in entries ==> Persisted(entries, thread, token)[key] == entries[key]
  {
  }

  /** The Dictionary<string, JsonElement?> the sample keeps its state in. */
  class AgentStateStore {
    var entries: map<string, Option<Json>>

    constructor ()
      ensures entries == map[]
    {
      entries := map[];
    }

    /** PersistAgentState. */
    method Persist(thread: AgentThread, token: Option<ContinuationToken>)
      modifies this
      ensures entries == Persisted(old(entries), thread, token)
      ensures Restored(entries) == Ok((thread, token))
    {
      entries := entries[ThreadEntry := Some(thread.state)];
      entries := entries[TokenEntry := Some(TokenToJson(token))];
      RestoreAfterPersist(old(entries), thread, token);
    }
  }

  // ----- The polling loop -----

  /** A follow-up poll: no new messages, the thread, and the options carrying the token. */
  function PollRequest(thread: AgentThread, token: Option<ContinuationToken>): (r: RunRequest)
    ensures r.messages == [] && r.thread == Some(thread)
    ensures r.options.Some? && r.options.value.allowBackgroundResponses && r.options.value.continuationToken == token
  {
    RunRequest([], Some(thread), Some(RunOptions(true, token)))
  }

  /**
   * Every request in `log` after index `start` polls with the token of the
   * response just before it, on the thread as that run left it.
   */
  ghost predicate PollsAfter(reply: seq<RunRequest> -> AgentRunResponse, log: seq<RunRequest>, start: nat) {
    forall i :: start < i < |log| ==>
      var previous := reply(log[..i]);
      previous.continuationToken.Some? && log[i] == PollRequest(ThreadAfter(previous), previous.continuationToken)
  }

  /** Polling with the latest response's token, on the thread it left, extends the polling history. */
  lemma PollsAfterExtend(reply: seq<RunRequest> -> AgentRunResponse, log: seq<RunRequest>, start: nat, request: RunRequest)
    requires start < |log| && PollsAfter(reply, log, start)
    requires reply(log).continuationToken.Some?
    requires request == PollRequest(ThreadAfter(reply(log)), reply(log).continuationToken)
    ensures PollsAfter(reply, log + [request], start)
  {
    var log' := log + [request];
    assert log'[..|log|] == log;
    forall i | start < i < |log'|
      ensures var previous := reply(log'[..i]);
              previous.continuationToken.Some? && log'[i] == PollRequest(ThreadAfter(previous), previous.continuationToken)
    {
      if i < |log| {
        assert log'[..i] == log[..i];
      }
    }
  }

  /** Persisting again overwrites the previous persist. */
  lemma PersistedTwice(entries: map<string, Option<Json>>, first: AgentThread, second: AgentThread,
                       firstToken: Option<ContinuationToken>, secondToken: Option<ContinuationToken>)
    ensures Persisted(Persisted(entries, first, firstToken), second, secondToken) == Persisted(entries, second, secondToken)
  {
  }

  /** The opening run: the novel prompt on the thread, background responses allowed, no token yet. */
  function FirstRequest(thread: AgentThread): (r: RunRequest)
    ensures r.messages == [TextMessage(User, NovelPrompt)] && r.thread == Some(thread)
    ensures r.options == Some(RunOptions(true, None))
  {
    RunRequest([TextMessage(User, NovelPrompt)], Some(thread), Some(RunOptions(true, None)))
  }

  /**
   * What the requests from `start` on and the state store say about a run
   * in progress: the opening run, then only polls, each with the token of
   * the response before it and on the thread as that run left it; the store
   * holds what the last poll persisted (nothing new before the first poll).
   */
  ghost predicate BackgroundHistory(reply: seq<RunRequest> -> AgentRunResponse, log: seq<RunRequest>, start: nat,
                                    thread: AgentThread, entries0: map<string, Option<Json>>, entries: map<string, Option<Json>>) {
    && start < |log|
    && log[start] == FirstRequest(thread)
    && PollsAfter(reply, log, start)
    && (|log| == start + 1 ==> entries == entries0)
    && (|log| > start + 1 ==>
          var previous := reply(log[..|log| - 1]);
          entries == Persisted(entries0, ThreadAfter(previous), previous.continuationToken))
  }

  /** A pass of the polling loop keeps the history. */
  lemma BackgroundHistoryExtend(reply: seq<RunRequest> -> AgentRunResponse, log: seq<RunRequest>, start: nat,
                                thread: AgentThread, entries0: map<string, Option<Json>>, entries: map<string, Option<Json>>,
                                token: ContinuationToken)
    requires BackgroundHistory(reply, log, start, thread, entries0, entries)
    requires reply(log).continuationToken == Some(token)
    ensures var current := ThreadAfter(reply(log));
            BackgroundHistory(reply, log + [PollRequest(current, Some(token))], start, thread, entries0,
                              Persisted(entries, current, Some(token)))
  {
    var current := ThreadAfter(reply(log));
    var log' := log + [PollRequest(current, Some(token))];
    PollsAfterExtend(reply, log, start, PollRequest(current, Some(token)));
    assert log'[..|log'| - 1] == log;
    if |log| > start + 1 {
      var previous := reply(log[..|log| - 1]);
      PersistedTwice(entries0, ThreadAfter(previous), current, previous.continuationToken, Some(token));
    }
  }

  /**
   * One pass of the polling loop: the thread as the last run left it and
   * the token are persisted and restored, and the agent is polled with the
   * restored thread and the options now carrying the restored token. The
   * poll updates the restored thread, which is returned.
   */
  method PersistAndPoll(agent: Collaborator<RunRequest, AgentRunResponse>, store: AgentStateStore,
                        thread: AgentThread, options: RunOptions, token: ContinuationToken,
                        ghost start: nat, ghost first: AgentThread, ghost entries0: map<string, Option<Json>>)
    returns (thread': AgentThread, options': RunOptions, response: AgentRunResponse)
    requires BackgroundHistory(agent.reply, agent.log, start, first, entries0, store.entries)
    requires thread == ThreadAfter(agent.reply(agent.log))
    requires agent.reply(agent.log).continuationToken == Some(token) && options.allowBackgroundResponses
    modifies agent, store
    ensures options' == RunOptions(true, Some(token))
    ensures agent.log == old(agent.log) + [PollRequest(thread, Some(token))]
    ensures response == agent.reply(agent.log) && thread' == ThreadAfter(response)
    ensures BackgroundHistory(agent.reply, agent.log, start, first, entries0, store.entries)
  {
    BackgroundHistoryExtend(agent.reply, agent.log, start, first, entries0, store.entries, token);
    store.Persist(thread, Some(token));
    var restored := Restored(store.entries);
    var restoredThread, continuationToken := restored.value.0, restored.value.1;
    options' := options.(continuationToken := continuationToken);
    response := agent.Call(RunRequest([], Some(restoredThread), Some(options')));
    thread' := ThreadAfter(response);
  }

  /**
   * The sample's main flow: the novel is requested with background
   * responses allowed, and while the latest response carries a
   * continuation token the thread and the token are persisted, restored,
   * and the agent is polled again with the restored thread and token.
   * Each run updates the thread it is given, so `current` follows the
   * thread's state from run to run. `limit` bounds the number of calls
   * after which the agent has finished; the sample itself relies on the
   * service finishing.
   */
  method RunInBackground(agent: Collaborator<RunRequest, AgentRunResponse>, store: AgentStateStore,
                         thread: AgentThread, ghost limit: nat)
    returns (response: AgentRunResponse)
    requires forall h :: |h| >= limit ==> agent.reply(h).continuationToken.None?
    modifies agent, store
    ensures response == agent.reply(agent.log) && response.continuationToken.None?
    ensures |agent.log| > |old(agent.log)| && agent.log[..|old(agent.log)|] == old(agent.log)
    ensures BackgroundHistory(agent.reply, agent.log, |old(agent.log)|, thread, old(store.entries), store.entries)
  {
    ghost var start := |agent.log|;
    ghost var entries0 := store.entries;
    var options := RunOptions(true, None);
    response := agent.Call(FirstRequest(thread));
    var current := ThreadAfter(response);
    while response.continuationToken.Some?
      invariant options.allowBackgroundResponses
      invariant response == agent.reply(agent.log) && current == ThreadAfter(response)
      invariant |agent.log| > start && agent.log[..start] == old(agent.log)
      invariant BackgroundHistory(agent.reply, agent.log, start, thread, entries0, store.entries)
      decreases limit - |agent.log|
    {
      ghost var before := agent.log;
      current, options, response := PersistAndPoll(agent, store, current, options, response.continuationToken.value,
                                                   start, thread, entries0);
      assert agent.log[..start] == before[..start];
    }
  }
}
