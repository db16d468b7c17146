/**
 * The conversation-storage sample: a chat message store that keeps an agent
 * thread's messages in the "ChatHistory" collection of a vector store, under
 * a thread key that survives serializing and restoring the thread.
 */
module StorageConversations {
  import opened Common
  import opened Chat

  /**
   * One record of the "ChatHistory" collection. The message is kept as the
   * value its JSON serialization stands for.
   */
  datatype ChatHistoryItem = ChatHistoryItem(
    key: string,
    threadId: Option<string>,
    timestamp: int,
    serializedMessage: ChatMessage,
    messageText: string)

  /** Every record is stored under its own key, as a keyed collection does. */
  predicate KeyedByKey(m: map<string, ChatHistoryItem>) {
    forall k :: k in m ==> m[k].key == k
  }

  /** Every record belongs to some thread. */
  predicate AllThreaded(m: map<string, ChatHistoryItem>) {
    forall k :: k in m ==> m[k].threadId.Some?
  }

  function KeysOf(items: seq<ChatHistoryItem>): set<string> {
    set i | 0 <= i < |items| :: items[i].key
  }

  /** Appending a record adds its key. */
  lemma KeysOfAppend(rs: seq<ChatHistoryItem>, x: ChatHistoryItem)
    ensures KeysOf(rs + [x]) == KeysOf(rs) + {x.key}
  {
    forall k | k in KeysOf(rs + [x]) ensures k in KeysOf(rs) + {x.key} {
      var i :| 0 <= i < |rs| + 1 && (rs + [x])[i].key == k;
      if i < |rs| { assert (rs + [x])[i] == rs[i]; }
    }
    forall k | k in KeysOf(rs) ensures k in KeysOf(rs + [x]) {
      var i :| 0 <= i < |rs| && rs[i].key == k;
      assert (rs + [x])[i] == rs[i];
    }
    assert (rs + [x])[|rs|] == x;
  }

  /** UpsertAsync: the records in order, each replacing any record stored under its key. */
  function UpsertAll(m: map<string, ChatHistoryItem>, items: seq<ChatHistoryItem>): (r: map<string, ChatHistoryItem>)
    ensures KeyedByKey(m) ==> KeyedByKey(r)
    decreases |items|
  {
    if items == [] then m
    else
      var last := items[|items| - 1];
      UpsertAll(m, items[..|items| - 1])[last.key := last]
  }

  /** The keys after an upsert are the old ones and those of the records written. */
  lemma {:induction false} UpsertAllKeys(m: map<string, ChatHistoryItem>, items: seq<ChatHistoryItem>)
    ensures UpsertAll(m, items).Keys == m.Keys + KeysOf(items)
    decreases |items|
  {
    if items != [] {
      var init := items[..|items| - 1];
      UpsertAllKeys(m, init);
      assert KeysOf(items) == KeysOf(init) + {items[|items| - 1].key} by {
        forall k | k in KeysOf(items) ensures k in KeysOf(init) + {items[|items| - 1].key} {
          var i :| 0 <= i < |items| && items[i].key == k;
          if i < |items| - 1 { assert init[i] == items[i]; }
        }
        forall k | k in KeysOf(init) ensures k in KeysOf(items) {
          var i :| 0 <= i < |init| && init[i].key == k;
          assert items[i] == init[i];
        }
      }
    }
  }

  /** Records under keys that are not written stay as they were. */
  lemma {:induction false} UpsertAllLeavesOthers(m: map<string, ChatHistoryItem>, items: seq<ChatHistoryItem>, k: string)
    requires k in m && k !in KeysOf(items)
    ensures k in UpsertAll(m, items) && UpsertAll(m, items)[k] == m[k]
    decreases |items|
  {
    if items != [] {
      var init := items[..|items| - 1];
      assert k != items[|items| - 1].key;
      UpsertAllLeavesOthers(m, init, k);
    }
  }

  /**
   * A record written under a key no later record uses is the one stored
   * there: writing an existing key overwrites its record, it never adds a
   * second one.
   */
  lemma {:induction false} UpsertAllLastWins(m: map<string, ChatHistoryItem>, items: seq<ChatHistoryItem>, i: nat)
    requires i < |items|
    requires forall j :: i < j < |items| ==> items[j].key != items[i].key
    ensures items[i].key in UpsertAll(m, items) && UpsertAll(m, items)[items[i].key] == items[i]
    decreases |items|
  {
    if i < |items| - 1 {
      var init := items[..|items| - 1];
      assert init[i] == items[i];
      UpsertAllLastWins(m, init, i);
    }
  }

  /** Writing records that all belong to a thread keeps every record in some thread. */
  lemma {:induction false} UpsertAllKeepsThreaded(m: map<string, ChatHistoryItem>, items: seq<ChatHistoryItem>)
    requires AllThreaded(m)
    requires forall i :: 0 <= i < |items| ==> items[i].threadId.Some?
    ensures AllThreaded(UpsertAll(m, items))
    decreases |items|
  {
    if items != [] {
      UpsertAllKeepsThreaded(m, items[..|items| - 1]);
    }
  }

  function Min(a: int, b: int): int { if a <= b then a else b }

  /** The keys of the records that belong to `threadId` (a null id selects the records without one). */
  function ThreadKeys(m: map<string, ChatHistoryItem>, threadId: Option<string>): set<string> {
    set k | k in m && m[k].threadId == threadId
  }

  /**
   * The answer to GetAsync(x => x.ThreadId == threadId, top, descending by
   * Timestamp): `top` of the thread's records (all of them if it has fewer),
   * each taken from the collection once, latest first, and none of the
   * records left out is later than one returned. Records with the same
   * timestamp may come in any order.
   */
  predicate IsLatestFirst(rs: seq<ChatHistoryItem>, m: map<string, ChatHistoryItem>, threadId: Option<string>, top: nat) {
    && |rs| == Min(top, |ThreadKeys(m, threadId)|)
    && (forall i :: 0 <= i < |rs| ==> rs[i].key in m && m[rs[i].key] == rs[i] && rs[i].threadId == threadId)
    && (forall i, j :: 0 <= i < j < |rs| ==> rs[i].key != rs[j].key)
    && (forall i, j :: 0 <= i < j < |rs| ==> rs[i].timestamp >= rs[j].timestamp)
    && (forall k, i :: k in ThreadKeys(m, threadId) && k !in KeysOf(rs) && 0 <= i < |rs| ==>
          m[k].timestamp <= rs[i].timestamp)
  }

  /** A non-empty set of stored keys has a latest record. */
  lemma {:induction false} LatestExists(m: map<string, ChatHistoryItem>, keys: set<string>)
    requires keys != {} && keys <= m.Keys
    ensures exists k :: k in keys && forall k' :: k' in keys ==> m[k'].timestamp <= m[k].timestamp
    decreases |keys|
  {
    var x :| x in keys;
    if keys != {x} {
      LatestExists(m, keys - {x});
      var y :| y in keys - {x} && forall k' :: k' in keys - {x} ==> m[k'].timestamp <= m[y].timestamp;
      if m[x].timestamp <= m[y].timestamp {
        assert forall k' :: k' in keys ==> m[k'].timestamp <= m[y].timestamp;
      } else {
        assert forall k' :: k' in keys ==> m[k'].timestamp <= m[x].timestamp;
      }
    } else {
      assert forall k' :: k' in keys ==> k' == x;
    }
  }

  /**
   * Midway through the query: `rs` holds the records taken so far, latest
   * first, and `remaining` the keys of the thread not yet taken, none of
   * them later than a record taken.
   */
  predicate TakenLatestFirst(rs: seq<ChatHistoryItem>, remaining: set<string>, m: map<string, ChatHistoryItem>, threadId: Option<string>) {
    && TakenKeys(rs, remaining, ThreadKeys(m, threadId))
    && (forall i :: 0 <= i < |rs| ==> rs[i].key in m && m[rs[i].key] == rs[i] && rs[i].threadId == threadId)
    && (forall i, j :: 0 <= i < j < |rs| ==> rs[i].key != rs[j].key)
    && (forall i, j :: 0 <= i < j < |rs| ==> rs[i].timestamp >= rs[j].timestamp)
    && (forall k, i :: k in remaining && 0 <= i < |rs| ==> m[k].timestamp <= rs[i].timestamp)
  }

  /** The keys taken and the keys remaining split the thread's keys. */
  predicate TakenKeys(rs: seq<ChatHistoryItem>, remaining: set<string>, thread: set<string>) {
    && KeysOf(rs) !! remaining && KeysOf(rs) + remaining == thread
    && |rs| + |remaining| == |thread|
  }

  /** Moving one remaining key to the taken records keeps the split. */
  lemma TakeKey(rs: seq<ChatHistoryItem>, remaining: set<string>, thread: set<string>, x: ChatHistoryItem)
    requires TakenKeys(rs, remaining, thread)
    requires x.key in remaining
    ensures TakenKeys(rs + [x], remaining - {x.key}, thread)
  {
    KeysOfAppend(rs, x);
  }

  /** Appending a record stored under its key in the thread keeps every record stored. */
  lemma AppendStored(rs: seq<ChatHistoryItem>, m: map<string, ChatHistoryItem>, threadId: Option<string>, x: ChatHistoryItem)
    requires forall i :: 0 <= i < |rs| ==> rs[i].key in m && m[rs[i].key] == rs[i] && rs[i].threadId == threadId
    requires x.key in m && m[x.key] == x && x.threadId == threadId
    ensures forall i :: 0 <= i < |rs + [x]| ==> (rs + [x])[i].key in m && m[(rs + [x])[i].key] == (rs + [x])[i]
                                                && (rs + [x])[i].threadId == threadId
  {
    forall i | 0 <= i < |rs + [x]|
      ensures (rs + [x])[i].key in m && m[(rs + [x])[i].key] == (rs + [x])[i] && (rs + [x])[i].threadId == threadId
    {
      if i < |rs| { assert (rs + [x])[i] == rs[i]; }
    }
  }

  /** Appending a record with a new key, no later than any taken, keeps keys distinct and timestamps descending. */
  lemma AppendOrdered(rs: seq<ChatHistoryItem>, x: ChatHistoryItem)
    requires forall i, j :: 0 <= i < j < |rs| ==> rs[i].key != rs[j].key
    requires forall i, j :: 0 <= i < j < |rs| ==> rs[i].timestamp >= rs[j].timestamp
    requires x.key !in KeysOf(rs)
    requires forall i :: 0 <= i < |rs| ==> x.timestamp <= rs[i].timestamp
    ensures forall i, j :: 0 <= i < j < |rs + [x]| ==> (rs + [x])[i].key != (rs + [x])[j].key
    ensures forall i, j :: 0 <= i < j < |rs + [x]| ==> (rs + [x])[i].timestamp >= (rs + [x])[j].timestamp
  {
    var rs' := rs + [x];
    forall i, j | 0 <= i < j < |rs'|
      ensures rs'[i].key != rs'[j].key && rs'[i].timestamp >= rs'[j].timestamp
    {
      assert rs'[i] == rs[i];
      if j == |rs| {
        assert rs[i].key in KeysOf(rs);
      } else {
        assert rs'[j] == rs[j];
      }
    }
  }

  /** Taking the latest remaining record keeps the query's invariant. */
  lemma TakeLatest(rs: seq<ChatHistoryItem>, remaining: set<string>, m: map<string, ChatHistoryItem>, threadId: Option<string>, k: string)
    requires KeyedByKey(m)
    requires TakenLatestFirst(rs, remaining, m, threadId)
    requires k in remaining
    requires forall k' :: k' in remaining ==> m[k'].timestamp <= m[k].timestamp
    ensures TakenLatestFirst(rs + [m[k]], remaining - {k}, m, threadId)
  {
    var rs', remaining' := rs + [m[k]], remaining - {k};
    var thread := ThreadKeys(m, threadId);
    assert m[k].key == k;
    TakeKey(rs, remaining, thread, m[k]);
    assert m[k].threadId == threadId by {
      assert k in thread;
    }
    AppendStored(rs, m, threadId, m[k]);
    AppendOrdered(rs, m[k]);
    AppendBounded(rs, remaining, m, k);
  }

  /** The records still remaining are no later than any taken, the newly taken one included. */
  lemma AppendBounded(rs: seq<ChatHistoryItem>, remaining: set<string>, m: map<string, ChatHistoryItem>, k: string)
    requires k in remaining && remaining <= m.Keys
    requires forall k', i :: k' in remaining && 0 <= i < |rs| ==> m[k'].timestamp <= rs[i].timestamp
    requires forall k' :: k' in remaining ==> m[k'].timestamp <= m[k].timestamp
    ensures forall k', i :: k' in remaining - {k} && 0 <= i < |rs + [m[k]]| ==> m[k'].timestamp <= (rs + [m[k]])[i].timestamp
  {
    forall k', i | k' in remaining - {k} && 0 <= i < |rs + [m[k]]|
      ensures m[k'].timestamp <= (rs + [m[k]])[i].timestamp
    {
      if i < |rs| { assert (rs + [m[k]])[i] == rs[i]; }
    }
  }

  /** When the query stops, what it took is the answer. */
  lemma TakenIsLatestFirst(rs: seq<ChatHistoryItem>, remaining: set<string>, m: map<string, ChatHistoryItem>, threadId: Option<string>, top: nat)
    requires TakenLatestFirst(rs, remaining, m, threadId)
    requires |rs| <= top && (|rs| == top || remaining == {})
    ensures IsLatestFirst(rs, m, threadId, top)
  {
  }

  /** The vector store, reduced to its "ChatHistory" collection. */
  class VectorStore {
    var chatHistory: map<string, ChatHistoryItem>

    predicate Valid()
      reads this
    {
      KeyedByKey(chatHistory)
    }

    constructor ()
      ensures Valid() && chatHistory == map[]
    {
      chatHistory := map[];
    }

    /** UpsertAsync on the collection. */
    method Upsert(items: seq<ChatHistoryItem>)
      requires Valid()
      modifies this
      ensures Valid()
      ensures chatHistory == UpsertAll(old(chatHistory), items)
    {
      chatHistory := UpsertAll(chatHistory, items);
    }

    /**
     * GetAsync with a thread filter, a top count and a descending timestamp
     * order: the latest remaining record of the thread is taken until `top`
     * records are taken or none remains.
     */
    method GetLatest(threadId: Option<string>, top: nat) returns (records: seq<ChatHistoryItem>)
      requires Valid()
      ensures IsLatestFirst(records, chatHistory, threadId, top)
    {
      var remaining := ThreadKeys(chatHistory, threadId);
      records := [];
      while |records| < top && remaining != {}
        invariant TakenLatestFirst(records, remaining, chatHistory, threadId)
        invariant |records| <= top
        decreases |remaining|
      {
        LatestExists(chatHistory, remaining);
        var k :| k in remaining && forall k' :: k' in remaining ==> chatHistory[k'].timestamp <= chatHistory[k].timestamp;
        TakeLatest(records, remaining, chatHistory, threadId, k);
        records := records + [chatHistory[k]];
        remaining := remaining - {k};
      }
      TakenIsLatestFirst(records, remaining, chatHistory, threadId, top);
    }
  }

  /** The records AddMessagesAsync writes for one batch, each under thread key + message id. */
  function HistoryItems(messages: seq<ChatMessage>, threadKey: string, timestamps: seq<int>): (items: seq<ChatHistoryItem>)
    requires |timestamps| == |messages|
    ensures |items| == |messages|
    ensures forall i :: 0 <= i < |items| ==>
              && items[i].key == threadKey + messages[i].messageId.GetOr("")
              && items[i].threadId == Some(threadKey)
              && items[i].timestamp == timestamps[i]
              && items[i].serializedMessage == messages[i]
              && items[i].messageText == messages[i].Text()
  {
    seq(|messages|, i requires 0 <= i < |messages| =>
      ChatHistoryItem(threadKey + messages[i].messageId.GetOr(""), Some(threadKey), timestamps[i], messages[i], messages[i].Text()))
  }

  /**
   * Messages without an id are all written under the bare thread key, so a
   * batch of them leaves a single record: the last message's.
   */
  lemma IdlessMessagesShareOneRecord(m: map<string, ChatHistoryItem>, messages: seq<ChatMessage>, threadKey: string, timestamps: seq<int>)
    requires |timestamps| == |messages| && |messages| > 0
    requires forall i :: 0 <= i < |messages| ==> messages[i].messageId.None?
    ensures var after := UpsertAll(m, HistoryItems(messages, threadKey, timestamps));
            && after.Keys == m.Keys + {threadKey}
            && after[threadKey].serializedMessage == messages[|messages| - 1]
  {
    var items := HistoryItems(messages, threadKey, timestamps);
    UpsertAllKeys(m, items);
    assert items[0].key == threadKey;
    assert KeysOf(items) == {threadKey};
    UpsertAllLastWins(m, items, |items| - 1);
  }

  /** The thread key a serialized store state restores: the string, when the state is a JSON string. */
  function RestoredThreadDbKey(serializedStoreState: Json): (key: Option<string>)
    ensures key.Some? <==> serializedStoreState.JString?
  {
    if serializedStoreState.JString? then Some(serializedStoreState.s) else None
  }

  /** The sequence in reverse order. */
  function Reversed<T>(s: seq<T>): (r: seq<T>)
    ensures |r| == |s|
    ensures forall i :: 0 <= i < |s| ==> r[i] == s[|s| - 1 - i]
    decreases |s|
  {
    if s == [] then [] else Reversed(s[1..]) + [s[0]]
  }

  /** Timestamps that never decrease: oldest first. */
  predicate Chronological(rs: seq<ChatHistoryItem>) {
    forall i, j :: 0 <= i < j < |rs| ==> rs[i].timestamp <= rs[j].timestamp
  }

  /** Reversing the latest-first query result puts it in chronological order. */
  lemma ReversedLatestFirstIsChronological(rs: seq<ChatHistoryItem>, m: map<string, ChatHistoryItem>, threadId: Option<string>, top: nat)
    requires IsLatestFirst(rs, m, threadId, top)
    ensures Chronological(Reversed(rs))
  {
    var r := Reversed(rs);
    forall i, j | 0 <= i < j < |r| ensures r[i].timestamp <= r[j].timestamp {
      assert r[i] == rs[|rs| - 1 - i] && r[j] == rs[|rs| - 1 - j];
    }
  }

  /** List.Reverse: the array is reversed in place. */
  method ReverseInPlace<T>(a: array<T>)
    modifies a
    ensures a[..] == Reversed(old(a[..]))
  {
    var n := a.Length;
    for i := 0 to n / 2
      invariant forall k :: 0 <= k < i ==> a[k] == old(a[n - 1 - k]) && a[n - 1 - k] == old(a[k])
      invariant forall k :: i <= k < n - i ==> a[k] == old(a[k])
    {
      a[i], a[n - 1 - i] := a[n - 1 - i], a[i];
    }
  }

  /** The number of records GetMessagesAsync asks for. */
  const Top := 10

  /**
   * VectorChatMessageStore: the thread key, once assigned, ties the store to
   * its records in the shared collection.
   */
  class VectorChatMessageStore {
    const vectorStore: VectorStore
    var threadDbKey: Option<string>

    /** The constructor past its null check: the key comes back from a JSON-string state only. */
    constructor (vectorStore: VectorStore, serializedStoreState: Json)
      ensures this.vectorStore == vectorStore
      ensures threadDbKey == RestoredThreadDbKey(serializedStoreState)
    {
      this.vectorStore := vectorStore;
      threadDbKey := RestoredThreadDbKey(serializedStoreState);
    }

    /** new VectorChatMessageStore(vectorStore, state): a null vector store throws ArgumentNullException. */
    static method Create(vectorStore: VectorStore?, serializedStoreState: Json) returns (r: Result<VectorChatMessageStore>)
      ensures vectorStore == null ==> r == Err(ArgumentNull("vectorStore", None))
      ensures vectorStore != null ==> r.Ok? && fresh(r.value) && r.value.vectorStore == vectorStore
                                      && r.value.threadDbKey == RestoredThreadDbKey(serializedStoreState)
    {
      if vectorStore == null {
        return Err(ArgumentNull("vectorStore", None));
      }
      var store := new VectorChatMessageStore(vectorStore, serializedStoreState);
      return Ok(store);
    }

    /**
     * AddMessagesAsync. `newKey` is the Guid drawn when the store has no key
     * yet; `timestamps` holds the clock reading taken for each message.
     */
    method AddMessages(messages: seq<ChatMessage>, newKey: string, timestamps: seq<int>)
      requires |timestamps| == |messages|
      requires vectorStore.Valid()
      modifies this, vectorStore
      ensures old(threadDbKey).Some? ==> threadDbKey == old(threadDbKey)
      ensures old(threadDbKey).None? ==> threadDbKey == Some(newKey)
      ensures vectorStore.Valid()
      ensures vectorStore.chatHistory
           == UpsertAll(old(vectorStore.chatHistory), HistoryItems(messages, threadDbKey.value, timestamps))
      ensures old(AllThreaded(vectorStore.chatHistory)) ==> AllThreaded(vectorStore.chatHistory)
    {
      if threadDbKey.None? {
        threadDbKey := Some(newKey);
      }
      var items := HistoryItems(messages, threadDbKey.value, timestamps);
      vectorStore.Upsert(items);
      if old(AllThreaded(vectorStore.chatHistory)) {
        UpsertAllKeepsThreaded(old(vectorStore.chatHistory), items);
      }
    }

    /**
     * GetMessagesAsync: the thread's ten latest records, turned back into
     * messages and put in chronological order.
     */
    method GetMessages() returns (messages: seq<ChatMessage>, ghost records: seq<ChatHistoryItem>)
      requires vectorStore.Valid()
      ensures IsLatestFirst(records, vectorStore.chatHistory, threadDbKey, Top)
      ensures |messages| == |records|
      ensures forall i :: 0 <= i < |messages| ==> messages[i] == records[|records| - 1 - i].serializedMessage
      ensures Chronological(Reversed(records))
    {
      var latest := vectorStore.GetLatest(threadDbKey, Top);
      records := latest;
      messages := OldestFirst(latest);
      ReversedLatestFirstIsChronological(latest, vectorStore.chatHistory, threadDbKey, Top);
    }

    /** Serialize: the thread key as a JSON string, or JSON null while there is none. */
    function Serialize(): (state: Json)
      reads this
      ensures RestoredThreadDbKey(state) == threadDbKey
      ensures state.JString? || state.JNull?
    {
      match threadDbKey
      case Some(key) => JString(key)
      case None => JNull
    }
  }

  /**
   * The records' messages (ConvertAll) in reverse order (List.Reverse): a
   * latest-first query result comes out oldest first.
   */
  method OldestFirst(records: seq<ChatHistoryItem>) returns (messages: seq<ChatMessage>)
    ensures |messages| == |records|
    ensures forall i :: 0 <= i < |messages| ==> messages[i] == records[|records| - 1 - i].serializedMessage
  {
    var list := new ChatMessage[|records|];
    for i := 0 to |records|
      invariant forall k :: 0 <= k < i ==> list[k] == records[k].serializedMessage
    {
      list[i] := records[i].serializedMessage;
    }
    ghost var converted := list[..];
    ReverseInPlace(list);
    messages := list[..];
    assert forall i :: 0 <= i < |messages| ==> messages[i] == converted[|records| - 1 - i];
  }

  /**
   * A store built from another's serialized state has the same thread key,
   * so on the same vector store it reads that thread's records.
   */
  method RestoreFromSerialized(store: VectorChatMessageStore) returns (restored: VectorChatMessageStore)
    ensures restored.vectorStore == store.vectorStore
    ensures restored.threadDbKey == store.threadDbKey
  {
    var r := VectorChatMessageStore.Create(store.vectorStore, store.Serialize());
    restored := r.value;
  }

  /** A store without a key reads nothing: every record written carries a thread id. */
  lemma NoKeyReadsNothing(rs: seq<ChatHistoryItem>, m: map<string, ChatHistoryItem>, top: nat)
    requires AllThreaded(m)
    requires IsLatestFirst(rs, m, None, top)
    ensures rs == []
  {
    assert ThreadKeys(m, None) == {};
  }
}
