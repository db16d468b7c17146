# Agent and service samples, modelled in Dafny

This project models the parts of an ASP.NET Core / Microsoft Agent Framework
sample collection that hold logic of their own. The SDK calls around that logic
are abstracted.

- **Conversation storage.** `VectorChatMessageStore` keeps a thread's chat
  messages in the "ChatHistory" collection of a vector store. Records are keyed
  by thread key + message id. A read returns the thread's ten latest records
  in chronological order. The thread key survives serializing and restoring.
- **Agent middleware.** Two filters wrap an agent run:
  - a keyword guardrail;
  - a PII filter with three regex passes.

  Also modelled: logging pass-throughs around the chat client and function
  calls, and an override of the `GetWeather` tool's result.
- **Background responses.** A long run is polled with its continuation token.
  Before each poll, the thread and the token are persisted to a dictionary and
  restored from it. The run also exposes a topic classifier tool and a
  character-profile tool.
- **Function approvals.** Each pending function-approval request is answered
  from the next console line. The rule is "Y", ignoring case. The answers go
  back to the agent on the same thread, as the last run left it, until it
  asks for nothing more.
- **Embedding services (two variants).** Constructor validation of the client
  and the options. A text guard, a check that the vector length equals the
  expected dimension, and translation of `RequestFailedException`.
- **OAuth redirect.** Both the Google and the GitHub handler percent-decode the
  redirect URI and turn every `http://` into `https://`. The credentials are
  read from configuration.

Code the samples call but do not contain is the class `Chat.Collaborator`: an
agent, a chat client, the next step of a function invocation, an embedding
client. It records the requests it receives in `log`. Its answer is a fixed
function `reply` of everything received so far, so a contract can say exactly
which calls were made and what was done with the answers.

Files:
- `common.dfy`: nullable values, exceptions as results, JSON elements.
- `text.dfy`: the .NET string operations used.
- `chat.dfy`: message and agent types, and `Collaborator`.
- `storage_conversations.dfy`, `middleware.dfy`, `background_response.dfy`,
  `approvals.dfy`, `oauth.dfy`: one file per sample.
- `background_tools.dfy`: the two tools of the background-response sample.
- `embeddings.dfy`: what the two embedding services share.
- `vectorstores_embedding.dfy`, `text_embedding_generation.dfy`: the two
  embedding services.

## Model

| member | source | states |
|---|---|---|
| StorageConversations.VectorChatMessageStore.Create | src/09-AI-Agent/Agent-Framework/07-StorageConversations/Program.cs:76-85 | a null vector store gives ArgumentNullException("vectorStore"); otherwise a new store on that vector store whose thread key is restored from the state |
| StorageConversations.VectorChatMessageStore.constructor | src/09-AI-Agent/Agent-Framework/07-StorageConversations/Program.cs:80-84 | the thread key comes back only from a JSON-string state, otherwise it stays null |
| StorageConversations.RestoredThreadDbKey | src/09-AI-Agent/Agent-Framework/07-StorageConversations/Program.cs:80-84 | a key is restored exactly when the state is a JSON string |
| StorageConversations.VectorChatMessageStore.AddMessages | src/09-AI-Agent/Agent-Framework/07-StorageConversations/Program.cs:89-104 | a key already set never changes; a missing one becomes the fresh Guid; the collection becomes the upsert of one record per message; records stay keyed by their key, and all of them keep a thread id |
| StorageConversations.HistoryItems | src/09-AI-Agent/Agent-Framework/07-StorageConversations/Program.cs:96-103 | one record per message with Key = thread key + message id (null id read as empty), ThreadId = thread key, the message's timestamp, message and text |
| StorageConversations.UpsertAll | src/09-AI-Agent/Agent-Framework/07-StorageConversations/Program.cs:96-103 | upserting keeps every record under its own key |
| StorageConversations.UpsertAllKeys | src/09-AI-Agent/Agent-Framework/07-StorageConversations/Program.cs:96-103 | the keys afterwards are exactly the old keys plus the keys written: no duplicates |
| StorageConversations.UpsertAllLeavesOthers | src/09-AI-Agent/Agent-Framework/07-StorageConversations/Program.cs:96-103 | records under keys not written are unchanged |
| StorageConversations.UpsertAllLastWins | src/09-AI-Agent/Agent-Framework/07-StorageConversations/Program.cs:96-103 | a record whose key no later record reuses is the one stored: an existing key is overwritten |
| StorageConversations.UpsertAllKeepsThreaded | src/09-AI-Agent/Agent-Framework/07-StorageConversations/Program.cs:100 | writing records that carry a thread id keeps every record in some thread |
| StorageConversations.IdlessMessagesShareOneRecord | src/09-AI-Agent/Agent-Framework/07-StorageConversations/Program.cs:98 | messages without an id all land under the bare thread key, so a batch of them leaves one record, the last message's |
| StorageConversations.VectorStore.Upsert | src/09-AI-Agent/Agent-Framework/07-StorageConversations/Program.cs:96-103 | the collection becomes the upsert of the records and stays keyed by key |
| StorageConversations.VectorStore.GetLatest | src/09-AI-Agent/Agent-Framework/07-StorageConversations/Program.cs:111-116 | returns min(top, thread size) distinct records of the thread, as stored, latest first, and no record left out is later than one returned |
| StorageConversations.LatestExists | src/09-AI-Agent/Agent-Framework/07-StorageConversations/Program.cs:114 | every non-empty set of records has a latest one |
| StorageConversations.TakeLatest | src/09-AI-Agent/Agent-Framework/07-StorageConversations/Program.cs:113-114 | taking the latest remaining record keeps the query's invariant |
| StorageConversations.TakeKey | src/09-AI-Agent/Agent-Framework/07-StorageConversations/Program.cs:113 | taken and remaining keys keep splitting the thread's keys |
| StorageConversations.TakenIsLatestFirst | src/09-AI-Agent/Agent-Framework/07-StorageConversations/Program.cs:113-114 | when the query stops, its records are the latest-first answer |
| StorageConversations.KeysOfAppend | src/09-AI-Agent/Agent-Framework/07-StorageConversations/Program.cs:116 | appending a record adds exactly its key |
| StorageConversations.Reversed | src/09-AI-Agent/Agent-Framework/07-StorageConversations/Program.cs:120 | element i of the reversal is element n-1-i |
| StorageConversations.ReverseInPlace | src/09-AI-Agent/Agent-Framework/07-StorageConversations/Program.cs:120 | the array afterwards is the reversal of its old contents |
| StorageConversations.ReversedLatestFirstIsChronological | src/09-AI-Agent/Agent-Framework/07-StorageConversations/Program.cs:114-120 | a descending query result, reversed, is in ascending timestamp order |
| StorageConversations.OldestFirst | src/09-AI-Agent/Agent-Framework/07-StorageConversations/Program.cs:118-120 | the records' messages, the last record's first: message i comes from record n-1-i |
| StorageConversations.VectorChatMessageStore.GetMessages | src/09-AI-Agent/Agent-Framework/07-StorageConversations/Program.cs:106-122 | the messages of the thread's 10 latest records (at most 10, only this thread's), oldest first |
| StorageConversations.VectorChatMessageStore.Serialize | src/09-AI-Agent/Agent-Framework/07-StorageConversations/Program.cs:124-126 | the state is a JSON string or null, and restoring it gives back the same thread key |
| StorageConversations.RestoreFromSerialized | src/09-AI-Agent/Agent-Framework/07-StorageConversations/Program.cs:76-126 | a store built from another's serialized state has the same vector store and the same thread key |
| StorageConversations.NoKeyReadsNothing | src/09-AI-Agent/Agent-Framework/07-StorageConversations/Program.cs:100-113 | a store with a null key reads nothing when every record has a thread id |
| AgentMiddleware.FilterContent | src/09-AI-Agent/Agent-Framework/14-Agent-Middleware/Program.cs:162-173 | the result is the block notice if 有害, 非法 or 暴力 occurs ignoring case, else the text unchanged |
| AgentMiddleware.UpperOfNoLower | src/09-AI-Agent/Agent-Framework/14-Agent-Middleware/Program.cs:166 | upper-casing leaves text without ASCII lower-case letters unchanged |
| AgentMiddleware.NoticeIsClean | src/09-AI-Agent/Agent-Framework/14-Agent-Middleware/Program.cs:164-168 | the block notice contains none of the keywords |
| AgentMiddleware.Guarded | src/09-AI-Agent/Agent-Framework/14-Agent-Middleware/Program.cs:162-173 | what passes the guardrail mentions no keyword, and a text is kept unchanged if and only if it mentions none |
| AgentMiddleware.GuardedIsIdempotent | src/09-AI-Agent/Agent-Framework/14-Agent-Middleware/Program.cs:162-173 | filtering twice is filtering once |
| AgentMiddleware.MatchAt | src/09-AI-Agent/Agent-Framework/14-Agent-Middleware/Program.cs:136 | a reported match lies inside the text |
| AgentMiddleware.ReplaceMatchesFrom | src/09-AI-Agent/Agent-Framework/14-Agent-Middleware/Program.cs:136 | from a start index on, text where the pattern matches nowhere is copied as it is |
| AgentMiddleware.RegexReplace | src/09-AI-Agent/Agent-Framework/14-Agent-Middleware/Program.cs:136 | Regex.Replace leaves a text in which the pattern matches nowhere unchanged |
| AgentMiddleware.ReplaceKeepsUnmatched | src/09-AI-Agent/Agent-Framework/14-Agent-Middleware/Program.cs:136 | characters where the pattern does not match are copied through unchanged |
| AgentMiddleware.ReplaceUpToFirstMatch | src/09-AI-Agent/Agent-Framework/14-Agent-Middleware/Program.cs:136 | text before the first match is kept, the match becomes the replacement, and scanning resumes after it |
| AgentMiddleware.PhoneNumber | src/09-AI-Agent/Agent-Framework/14-Agent-Middleware/Program.cs:129 | the phone pattern matches 12 characters or none |
| AgentMiddleware.PhoneNumberIsRedacted | src/09-AI-Agent/Agent-Framework/14-Agent-Middleware/Program.cs:129-136 | "123-456-7890" becomes the PII notice |
| AgentMiddleware.PiiPatterns | src/09-AI-Agent/Agent-Framework/14-Agent-Middleware/Program.cs:127-132 | three patterns in order: phone, e-mail, full name |
| AgentMiddleware.FilterPii | src/09-AI-Agent/Agent-Framework/14-Agent-Middleware/Program.cs:125-139 | the result is the three replace-all passes applied in order |
| AgentMiddleware.Redacted | src/09-AI-Agent/Agent-Framework/14-Agent-Middleware/Program.cs:134-138 | text that none of the patterns matches comes out of the passes unchanged |
| AgentMiddleware.FilterMessages | src/09-AI-Agent/Agent-Framework/14-Agent-Middleware/Program.cs:120-123 | same count, order and roles, each text filtered, ids dropped (also lines 157-160) |
| AgentMiddleware.PIIMiddleware | src/09-AI-Agent/Agent-Framework/14-Agent-Middleware/Program.cs:107-118 | one inner call with the filtered messages and the same thread and options; its response returned with filtered messages |
| AgentMiddleware.GuardrailMiddleware | src/09-AI-Agent/Agent-Framework/14-Agent-Middleware/Program.cs:143-155 | one inner call with the guarded messages; the response's messages are guarded, so none mentions a keyword |
| AgentMiddleware.FunctionCallMiddleware | src/09-AI-Agent/Agent-Framework/14-Agent-Middleware/Program.cs:83-89 | next is called once with the context, and its result is returned as is |
| AgentMiddleware.FunctionCallOverrideWeather | src/09-AI-Agent/Agent-Framework/14-Agent-Middleware/Program.cs:91-104 | next always runs once; the result is the sunny forecast exactly for GetWeather, otherwise next's result |
| AgentMiddleware.ChatClientMiddleware | src/09-AI-Agent/Agent-Framework/14-Agent-Middleware/Program.cs:75-81 | the inner client is called once with the messages and options, and its response is returned as is |
| BackgroundResponse.TokenFromJson | src/09-AI-Agent/Agent-Framework/13-Backgroud-Response-With-Tool-And-Persistence/Program.cs:77-80 | a null entry or JSON null gives a null token; a token only comes from a JSON string holding it; any other JSON value gives the JsonException |
| BackgroundResponse.TokenToJson | src/09-AI-Agent/Agent-Framework/13-Backgroud-Response-With-Tool-And-Persistence/Program.cs:69 | a serialized token reads back as the same token |
| BackgroundResponse.Persisted | src/09-AI-Agent/Agent-Framework/13-Backgroud-Response-With-Tool-And-Persistence/Program.cs:66-70 | the thread entry holds the thread's serialized state and the token entry reads back as the token |
| BackgroundResponse.Restored | src/09-AI-Agent/Agent-Framework/13-Backgroud-Response-With-Tool-And-Persistence/Program.cs:74-81 | a missing thread entry gives KeyNotFound("thread"); a null thread gives InvalidOperationException before the token is read; a missing token entry gives KeyNotFound("continuationToken"); a token that does not deserialize gives its JsonException; success exactly when both entries are usable, with the stored thread and token |
| BackgroundResponse.RestoreAfterPersist | src/09-AI-Agent/Agent-Framework/13-Backgroud-Response-With-Tool-And-Persistence/Program.cs:66-81 | restoring what was persisted gives back the thread and the token |
| BackgroundResponse.PersistLeavesOthers | src/09-AI-Agent/Agent-Framework/13-Backgroud-Response-With-Tool-And-Persistence/Program.cs:66-70 | persisting leaves every other entry as it was |
| BackgroundResponse.PollRequest | src/09-AI-Agent/Agent-Framework/13-Backgroud-Response-With-Tool-And-Persistence/Program.cs:59-60 | a poll sends no messages, on the given thread, with background responses allowed and the given token |
| BackgroundResponse.FirstRequest | src/09-AI-Agent/Agent-Framework/13-Backgroud-Response-With-Tool-And-Persistence/Program.cs:39-46 | the opening run sends the novel prompt as a User message, on the thread, with background responses allowed and no token |
| BackgroundResponse.AgentStateStore.Persist | src/09-AI-Agent/Agent-Framework/13-Backgroud-Response-With-Tool-And-Persistence/Program.cs:66-70 | the two entries are written and restore to the thread and token |
| BackgroundResponse.PersistAndPoll | src/09-AI-Agent/Agent-Framework/13-Backgroud-Response-With-Tool-And-Persistence/Program.cs:51-60 | the thread as the last run left it and the token are persisted and restored; the options now carry the token; exactly one poll with them is sent, and the thread that poll leaves is returned; the run's history is kept |
| BackgroundResponse.PollsAfterExtend | src/09-AI-Agent/Agent-Framework/13-Backgroud-Response-With-Tool-And-Persistence/Program.cs:49-60 | a poll carrying the latest response's token, on the thread that response left, extends a history of polls |
| BackgroundResponse.BackgroundHistoryExtend | src/09-AI-Agent/Agent-Framework/13-Backgroud-Response-With-Tool-And-Persistence/Program.cs:49-60 | a persist-and-poll pass keeps the history: only polls follow the opening run, and the store holds what the last poll persisted |
| BackgroundResponse.RunInBackground | src/09-AI-Agent/Agent-Framework/13-Backgroud-Response-With-Tool-And-Persistence/Program.cs:39-61 | the opening run carries the prompt with background responses allowed and no token; every later run is a poll with the token of the response before it, which had one, on the thread as that run left it; the final response has no token; the store holds the thread and token persisted before the last poll, or is untouched if there was none |
| BackgroundTools.ResearchSpaceFacts | src/09-AI-Agent/Agent-Framework/13-Backgroud-Response-With-Tool-And-Persistence/Program.cs:84-100 | every answer opens with the research-result header |
| BackgroundTools.ResearchSpaceFactsFirstMatch | src/09-AI-Agent/Agent-Framework/13-Backgroud-Response-With-Tool-And-Persistence/Program.cs:90-96 | each canned answer exactly when its keyword occurs ignoring case and no earlier one does; the general answer names the topic |
| BackgroundTools.TravelInAnyCase | src/09-AI-Agent/Agent-Framework/13-Backgroud-Response-With-Tool-And-Persistence/Program.cs:93 | "travel" in any case selects the travel notes unless a galaxy is mentioned |
| BackgroundTools.CharacterProfiles | src/09-AI-Agent/Agent-Framework/13-Backgroud-Response-With-Tool-And-Persistence/Program.cs:110-119 | exactly five distinct profiles |
| FunctionApprovals.GetNews | src/09-AI-Agent/Agent-Framework/04-FunctionTools-WithApprovals/Program.cs:24-26 | the headline holds the country right after the fixed prefix |
| FunctionApprovals.GetNewsNamesCountry | src/09-AI-Agent/Agent-Framework/04-FunctionTools-WithApprovals/Program.cs:24-26 | different countries get different headlines, and each headline contains its country |
| FunctionApprovals.Approves | src/09-AI-Agent/Agent-Framework/04-FunctionTools-WithApprovals/Program.cs:48 | approval if and only if the line is "Y" or "y"; end of input denies |
| FunctionApprovals.ConsoleInput.ReadLine | src/09-AI-Agent/Agent-Framework/04-FunctionTools-WithApprovals/Program.cs:48 | the next line is consumed, or null at end of input |
| FunctionApprovals.ApprovalRequests | src/09-AI-Agent/Agent-Framework/04-FunctionTools-WithApprovals/Program.cs:43-44 | exactly the function-approval requests are kept |
| FunctionApprovals.ApprovalRequestsKeepOrder | src/09-AI-Agent/Agent-Framework/04-FunctionTools-WithApprovals/Program.cs:43-44 | the filter works piecewise, so request order is kept |
| FunctionApprovals.ApprovalMessage | src/09-AI-Agent/Agent-Framework/04-FunctionTools-WithApprovals/Program.cs:48 | a User message with one approval response for that request and decision |
| FunctionApprovals.CollectApprovals | src/09-AI-Agent/Agent-Framework/04-FunctionTools-WithApprovals/Program.cs:43-50 | one message per approval request, in order, the j-th decided by the j-th line read; exactly that many lines are consumed |
| FunctionApprovals.FirstRequest | src/09-AI-Agent/Agent-Framework/04-FunctionTools-WithApprovals/Program.cs:37-38 | the opening run sends the question as a User message, on the thread, with no options |
| FunctionApprovals.Unread | src/09-AI-Agent/Agent-Framework/04-FunctionTools-WithApprovals/Program.cs:48 | what is left on the console after n reads: n lines fewer, or none |
| FunctionApprovals.AnsweredFromConsole | src/09-AI-Agent/Agent-Framework/04-FunctionTools-WithApprovals/Program.cs:43-50 | answers read from the console after n earlier reads are the answers decided by its lines from n on |
| FunctionApprovals.AnswersSinceExtend | src/09-AI-Agent/Agent-Framework/04-FunctionTools-WithApprovals/Program.cs:41-53 | a request answering the latest response, on the thread it left, with no options, extends the answered history |
| FunctionApprovals.ApprovalHistoryExtend | src/09-AI-Agent/Agent-Framework/04-FunctionTools-WithApprovals/Program.cs:41-53 | answering the latest response's approval requests with the next console lines, on the thread as that run left it and with no options, extends the history, and the lines read are exactly one per approval request |
| FunctionApprovals.AnswerAndRun | src/09-AI-Agent/Agent-Framework/04-FunctionTools-WithApprovals/Program.cs:41-53 | one pass of the loop: one line is read per approval request, the answers go out in one run on the thread the last run left, and the history, console included, is kept |
| FunctionApprovals.RunWithApprovals | src/09-AI-Agent/Agent-Framework/04-FunctionTools-WithApprovals/Program.cs:37-54 | the question goes first, on the thread with no options; every later run follows a response that had requests and carries exactly the answers to its approval requests, in order, on the thread as that run left it; the j-th answer of a run approves exactly when the console line read for it is "Y" or "y" (a missing line denies), the lines being read in order across runs; the console afterwards holds exactly the unread lines; the final response has no requests |
| Embeddings.DefaultOptions | src/09-AI-Agent/SemanticKernel/SK.VectorStores/Models/AzureEmbeddingOptions.cs:11-14 | no deployment name and 1536 dimensions |
| Embeddings.DefaultOptionsNeedDeployment | src/09-AI-Agent/SemanticKernel/SK.VectorStores/Models/AzureEmbeddingOptions.cs:11-14 | default options are refused for lack of a deployment; with a name they give 1536 dimensions |
| Embeddings.CheckOptions | src/09-AI-Agent/SemanticKernel/SK.VectorStores/Services/AzureOpenAIEmbeddingService.cs:21-27 | null options give ArgumentNullException, a blank name and then a dimension <= 0 give ArgumentException; success exactly otherwise, with a positive dimension |
| Embeddings.MismatchMessage | src/09-AI-Agent/SemanticKernel/SK.VectorStores/Services/AzureOpenAIEmbeddingService.cs:52-53 | the message opens with the expected dimension and contains the actual one |
| Embeddings.CheckedEmbedding | src/09-AI-Agent/SemanticKernel/SK.VectorStores/Services/AzureOpenAIEmbeddingService.cs:38-62 | success exactly for a vector of the expected length; other lengths give the mismatch InvalidOperationException; RequestFailed is wrapped in InvalidOperationException; other exceptions pass through |
| VectorStoresEmbedding.AzureOpenAIEmbeddingService.Create | src/09-AI-Agent/SemanticKernel/SK.VectorStores/Services/AzureOpenAIEmbeddingService.cs:16-31 | a null client gives ArgumentNullException("client"), then the option errors; a built service has a named deployment and a positive dimension |
| VectorStoresEmbedding.AzureOpenAIEmbeddingService.constructor | src/09-AI-Agent/SemanticKernel/SK.VectorStores/Services/AzureOpenAIEmbeddingService.cs:29-30 | the fields hold the client, the deployment name and the dimension |
| VectorStoresEmbedding.AzureOpenAIEmbeddingService.CreateAsync | src/09-AI-Agent/SemanticKernel/SK.VectorStores/Services/AzureOpenAIEmbeddingService.cs:33-63 | blank text is refused with no client call; otherwise one call for (deployment, text) whose outcome is checked; a result has the expected length |
| TextEmbeddingGeneration.AzureOpenAIEmbeddingService.Create | src/09-AI-Agent/SemanticKernel/SK.TextEmbeddingGeneration/Services/AzureOpenAIEmbeddingService.cs:18-32 | a null generator gives ArgumentException("") with no parameter name, then the option errors; a built service has a named deployment and a positive dimension |
| TextEmbeddingGeneration.AzureOpenAIEmbeddingService.constructor | src/09-AI-Agent/SemanticKernel/SK.TextEmbeddingGeneration/Services/AzureOpenAIEmbeddingService.cs:29-30 | the fields hold the generator, the deployment name and the dimension |
| TextEmbeddingGeneration.AzureOpenAIEmbeddingService.CreateAsync | src/09-AI-Agent/SemanticKernel/SK.TextEmbeddingGeneration/Services/AzureOpenAIEmbeddingService.cs:34-60 | blank text is refused with no generator call; otherwise one call with the text alone, checked; a result has the expected length |
| OAuthRedirect.HexValue | src/10-Third-Party/AspNetCore.OAuth/Program.cs:20 | a hex digit's value is below 16 |
| OAuthRedirect.HexDigit | src/10-Third-Party/AspNetCore.OAuth/Program.cs:24 | the digit written for a value reads back as that value |
| OAuthRedirect.Utf8Bytes | src/10-Third-Party/AspNetCore.OAuth/Program.cs:24 | 1 to 4 bytes, a single byte exactly for ASCII |
| OAuthRedirect.PercentEncoded | src/10-Third-Party/AspNetCore.OAuth/Program.cs:24 | three characters per byte |
| OAuthRedirect.UnescapeUndoesEscape | src/10-Third-Party/AspNetCore.OAuth/Program.cs:20-24 | decoding undoes encoding for ASCII text |
| OAuthRedirect.UnescapeDataString | src/10-Third-Party/AspNetCore.OAuth/Program.cs:20 | decoding never lengthens the text |
| OAuthRedirect.UnescapeWithoutPercent | src/10-Third-Party/AspNetCore.OAuth/Program.cs:20 | text without '%' decodes to itself |
| OAuthRedirect.EscapeDataString | src/10-Third-Party/AspNetCore.OAuth/Program.cs:24 | every character becomes between 1 and 12 characters |
| OAuthRedirect.RedirectTarget | src/10-Third-Party/AspNetCore.OAuth/Program.cs:17-29 | the target never contains "http://", and a decoded URI without "http://" is the target as it is; the re-encoded text is not used |
| OAuthRedirect.NoHttpAfterPlainPrefix | src/10-Third-Party/AspNetCore.OAuth/Program.cs:22 | a prefix without 'h' cannot complete an "http://" |
| OAuthRedirect.NoHttpAfterHttps | src/10-Third-Party/AspNetCore.OAuth/Program.cs:22 | "https://" cannot re-form "http://" with what follows |
| OAuthRedirect.UpgradeKeepsPrefix | src/10-Third-Party/AspNetCore.OAuth/Program.cs:22 | a prefix without 'h' of the upgraded text is a prefix of the original |
| OAuthRedirect.UpgradeLeavesNoHttp | src/10-Third-Party/AspNetCore.OAuth/Program.cs:22 | after the replacement no "http://" remains |
| OAuthRedirect.UpgradeToHttps | src/10-Third-Party/AspNetCore.OAuth/Program.cs:22 | no "http://" is left, and text without one is kept as it is |
| OAuthRedirect.UpgradeIsIdempotent | src/10-Third-Party/AspNetCore.OAuth/Program.cs:22 | replacing twice is replacing once |
| OAuthRedirect.ConfigureHandler | src/10-Third-Party/AspNetCore.OAuth/Program.cs:8-17 | success exactly when both credentials are configured; a missing id, then a missing secret, gives ArgumentNullException with the provider's message; the handler redirects by RedirectTarget (GitHub: lines 40-48) |
| Text.UpperChar | src/09-AI-Agent/Agent-Framework/13-Backgroud-Response-With-Tool-And-Persistence/Program.cs:90 | a character changes exactly when it is a lower-case ASCII letter, and never stays lower-case |
| Text.ToUpperInvariant | src/09-AI-Agent/Agent-Framework/13-Backgroud-Response-With-Tool-And-Persistence/Program.cs:90 | same length, each character upper-cased |
| Text.DecimalString | src/09-AI-Agent/SemanticKernel/SK.VectorStores/Services/AzureOpenAIEmbeddingService.cs:52-53 | non-empty decimal digits that spell the number, with no leading zero |
| Text.ContainsAt | src/09-AI-Agent/Agent-Framework/14-Agent-Middleware/Program.cs:166 | an occurrence at a known position is an occurrence |
| Text.ContainsIsNoLonger | src/10-Third-Party/AspNetCore.OAuth/Program.cs:22 | only strings at least as long can contain a string |
| Text.ContainsShowsFirstChar | src/09-AI-Agent/Agent-Framework/14-Agent-Middleware/Program.cs:166 | an occurrence of a non-empty string shows its first character |
| Text.Replace | src/10-Third-Party/AspNetCore.OAuth/Program.cs:22 | a string without occurrences is left unchanged, and a replacement of the same length keeps the length |
| Text.ContainsIffOccurs | src/09-AI-Agent/Agent-Framework/13-Backgroud-Response-With-Tool-And-Persistence/Program.cs:92-94 | ordinal Contains holds exactly when the string occurs at some index |
| Text.ContainsUpper | src/09-AI-Agent/Agent-Framework/13-Backgroud-Response-With-Tool-And-Persistence/Program.cs:90-94 | upper-casing keeps every occurrence, and a string only occurs in one at least as long |
| Text.ContainsIgnoreCase | src/09-AI-Agent/Agent-Framework/14-Agent-Middleware/Program.cs:166 | an exact occurrence is a case-insensitive one, and none fits in a shorter string |
| Text.EqualsIgnoreCase | src/09-AI-Agent/Agent-Framework/04-FunctionTools-WithApprovals/Program.cs:48 | equal ignoring case exactly when of the same length with the same characters up to case |
| Text.IsNullOrWhiteSpace | src/09-AI-Agent/SemanticKernel/SK.VectorStores/Services/AzureOpenAIEmbeddingService.cs:35 | null and the empty string are blank; a string is blank exactly when all its characters are white space |
| Chat.TextMessage | src/09-AI-Agent/Agent-Framework/14-Agent-Middleware/Program.cs:122 | a new message has the given role and text and no id |
| Chat.ChatMessage.Text | src/09-AI-Agent/Agent-Framework/14-Agent-Middleware/Program.cs:122 | a single text content is the text; a message without text contents has the empty text |
| Chat.Collaborator.Call | src/09-AI-Agent/Agent-Framework/14-Agent-Middleware/Program.cs:112 | the request is logged, and the answer is the reply to the whole log |

## Left out

- The SDK calls are not modelled beyond `Chat.Collaborator`. This covers Azure OpenAI client construction, credentials, `RunAsync`, chat clients, embedding clients, thread creation and `DeserializeThread`. An agent thread is represented by its serialized state, and `DeserializeThread` is taken as the inverse of `Serialize`. What `RunAsync` does to the thread it is given is represented by the state each response reports (`threadState`); the next request goes out on the thread in that state.
- JSON serialization of chat messages: a stored record holds the message itself, as if `Serialize` and `Deserialize` were inverses.
- `Console` output, `Task.Delay`, cancellation tokens, `DateTimeOffset.UtcNow` and `Guid.NewGuid` become parameters: the clock reading per message, the fresh key, and the console's lines. Otherwise they are left out.
- `AsBuilder().Use(...)` composition of the middlewares and the `GetWeather` / `GetDateTime` tool bodies are not modelled; each middleware is modelled on its own over an abstract `next`/inner. The commented-out middleware after line 176 is not live code.
- AgentMiddleware.PiiRecognizers: the e-mail and full-name patterns are parameters. The .NET regex engine that matches them is not part of this model. The phone pattern is written out with ASCII `\d`, `\w` and `\b`. The Unicode digits and letters that .NET also accepts there are left out.
- Text.UpperChar: folds ASCII letters only. .NET's invariant upper-casing and OrdinalIgnoreCase fold every letter. The decisions the samples make are unaffected, because no non-ASCII letter upper-cases to a letter of 有害, 非法, 暴力, 星系, 太空, 宇航员, TRAVEL or Y.
- OAuthRedirect.UnescapeDataString: decodes only escapes of ASCII characters. Multi-byte UTF-8 escape sequences are left as they are, and `UnescapeUndoesEscape` is stated for ASCII text only.
- OAuthRedirect.ConfigureHandler: configuration keys are matched exactly. ASP.NET configuration keys are case-insensitive, and the other handler options (scopes, SaveTokens, the sign-in scheme, OnCreatingTicket) are not modelled.
- BackgroundResponse.RunInBackground and FunctionApprovals.RunWithApprovals: a ghost `limit` bounds the number of agent calls. Past that bound the agent has finished (no continuation token, no user-input requests). The samples themselves loop for as long as the service keeps asking.
- Storage model:
  - the vector store holds only the "ChatHistory" collection;
  - `EnsureCollectionExistsAsync` is left out;
  - timestamps are plain integers, and records with equal timestamps may be returned in any order;
  - `MessageText` is stored and never read.
- Embedding vectors are represented by their length; their float contents are not modelled. The options type of the text-embedding-generation sample is not part of this model. It is taken to have the same shape as the vector-store sample's `AzureEmbeddingOptions`.
- ResponseContinuationToken is modelled as a JSON string holding its data. Its real JSON shape is internal to the SDK.
