/**
 * The chat window of the frontend: appending relayed messages that belong
 * to the open conversation, the guarded send handler, the grouping of the
 * message list by date, and the "own message" test. The HTTP API, the socket
 * and the clock are parameters: the outcome of `api.post`, whether the
 * socket is connected, `Date.now()` and the date key of a message.
 */
module ChatWindow {
  import opened Wrappers
  import opened JsStrings
  import opened Assoc
  import Presence
  import Relay
  import ChatPage

  type UserId = string

  /** `msg.senderId`: a populated user object (`{ _id }`) or a bare id string. */
  datatype SenderRef = Populated(id: UserId) | BareId(id: UserId)

  /** One entry of the `messages` state. */
  datatype WindowMessage = WindowMessage(id: string, chatId: string, sender: SenderRef, message: string, createdAt: int)

  /** A `receiveMessage` payload as the client receives it; `timestamp` may be missing. */
  datatype Incoming = Incoming(chatId: string, senderId: UserId, message: string, timestamp: Option<int>)

  /** What the window sends out: the `api.post('/messages')` request and the socket `sendMessage` emit. */
  datatype Request =
    | PostMessage(chatId: string, receiverId: UserId, message: string)
    | EmitSendMessage(payload: Relay.MessagePayload)

  /** `isOwn`: my message whether its sender is populated or a bare id. */
  function IsOwn(msg: WindowMessage, me: UserId): (r: bool)
    ensures r <==> msg.sender.id == me
  {
    (msg.sender.Populated? && msg.sender.id == me) || (msg.sender.BareId? && msg.sender.id == me)
  }

  /**
   * The `receiveMessage` listener: a payload for another conversation
   * leaves the list unchanged; one for the open conversation adds exactly
   * one entry at the end, with the payload's chat id, sender and text, the
   * payload's timestamp or else the local clock, and keeps every earlier
   * entry.
   */
  function Receive(messages: seq<WindowMessage>, windowChatId: string, data: Incoming, localId: string, now: int): (r: seq<WindowMessage>)
    ensures data.chatId != windowChatId ==> r == messages
    ensures data.chatId == windowChatId ==>
              && |r| == |messages| + 1 && r[..|messages|] == messages
              && r[|messages|].id == localId
              && r[|messages|].chatId == data.chatId
              && r[|messages|].sender == Populated(data.senderId)
              && r[|messages|].message == data.message
              && r[|messages|].createdAt == (if data.timestamp.Some? then data.timestamp.value else now)
  {
    if data.chatId == windowChatId then
      messages + [WindowMessage(localId, data.chatId, Populated(data.senderId), data.message,
                                match data.timestamp case Some(t) => t case None => now)]
    else messages
  }

  /**
   * End to end: what the sender's window emits for conversation
   * `ChatIdOf(s, r)`, relayed by the server to the receiver's socket,
   * passes the filter of the receiver's window, whose conversation id is
   * `ChatIdOf(r, s)`, and shows up there as a message not of its own.
   */
  lemma RelayedMessageReachesPeer(es: seq<Presence.Entry>, conn: Presence.SocketId, s: UserId, r: UserId,
                                  text: string, now: Relay.Timestamp, sid: Presence.SocketId,
                                  messages: seq<WindowMessage>, localId: string, clientNow: int)
    requires Presence.Lookup(es, r) == Some(sid) && sid != "" && s != r
    ensures var payload := Relay.MessagePayload(r, text, s, ChatPage.ChatIdOf(s, r));
            var out := Relay.Handle(es, conn, Relay.SendMessage(payload, now)).1;
            && out == Some((sid, Relay.ReceiveMessage(s, text, ChatPage.ChatIdOf(s, r), now)))
            && var data := Incoming(out.value.1.chatId, out.value.1.senderId, out.value.1.message, Some(out.value.1.timestamp));
               var shown := Receive(messages, ChatPage.ChatIdOf(r, s), data, localId, clientNow);
               && shown == messages + [WindowMessage(localId, ChatPage.ChatIdOf(r, s), Populated(s), text, now)]
               && !IsOwn(shown[|messages|], r)
  {
    ChatPage.ChatIdSymmetric(s, r);
  }

  /** The messages of `ms` whose date key is `k`, in their original order. */
  function WithDateKey(ms: seq<WindowMessage>, dateKey: WindowMessage -> string, k: string): seq<WindowMessage>
    decreases |ms|
  {
    if ms == [] then []
    else
      var init, last := ms[..|ms| - 1], ms[|ms| - 1];
      WithDateKey(init, dateKey, k) + if dateKey(last) == k then [last] else []
  }

  /** A message is in the list for key `k` exactly when it is in `ms` and its key is `k`. */
  lemma {:induction false} WithDateKeyMembers(ms: seq<WindowMessage>, dateKey: WindowMessage -> string, k: string, m: WindowMessage)
    ensures m in WithDateKey(ms, dateKey, k) <==> m in ms && dateKey(m) == k
    decreases |ms|
  {
    if ms != [] {
      var init, last := ms[..|ms| - 1], ms[|ms| - 1];
      assert ms == init + [last];
      WithDateKeyMembers(init, dateKey, k, m);
    }
  }

  lemma {:induction false} WithDateKeyNone(ms: seq<WindowMessage>, dateKey: WindowMessage -> string, k: string)
    requires forall j :: 0 <= j < |ms| ==> dateKey(ms[j]) != k
    ensures WithDateKey(ms, dateKey, k) == []
    decreases |ms|
  {
    if ms != [] {
      WithDateKeyNone(ms[..|ms| - 1], dateKey, k);
    }
  }

  /** Position of the first message of `ms` with date key `k`, or `|ms|` when there is none. */
  function FirstWithKey(ms: seq<WindowMessage>, dateKey: WindowMessage -> string, k: string): (j: nat)
    ensures j <= |ms|
    ensures j < |ms| ==> dateKey(ms[j]) == k
    ensures forall i :: 0 <= i < j ==> dateKey(ms[i]) != k
  {
    if ms == [] || dateKey(ms[0]) == k then 0
    else
      var j := FirstWithKey(ms[1..], dateKey, k);
      assert forall i :: 1 <= i < |ms| ==> ms[i] == ms[1..][i - 1];
      1 + j
  }

  /** The conditions `FirstWithKey` promises determine the position. */
  lemma FirstWithKeyIs(ms: seq<WindowMessage>, dateKey: WindowMessage -> string, k: string, j: nat)
    requires j <= |ms| && (j < |ms| ==> dateKey(ms[j]) == k)
    requires forall i :: 0 <= i < j ==> dateKey(ms[i]) != k
    ensures FirstWithKey(ms, dateKey, k) == j
  {
  }

  lemma FirstWithKeySnoc(ms: seq<WindowMessage>, dateKey: WindowMessage -> string, m: WindowMessage, k: string)
    ensures FirstWithKey(ms + [m], dateKey, k)
         == if FirstWithKey(ms, dateKey, k) < |ms| then FirstWithKey(ms, dateKey, k)
            else if dateKey(m) == k then |ms| else |ms| + 1
  {
    var s := ms + [m];
    var f := FirstWithKey(ms, dateKey, k);
    assert forall i :: 0 <= i < |ms| ==> s[i] == ms[i];
    if f < |ms| {
      FirstWithKeyIs(s, dateKey, k, f);
    } else {
      assert s[|ms|] == m;
      FirstWithKeyIs(s, dateKey, k, if dateKey(m) == k then |ms| else |ms| + 1);
    }
  }

  lemma WithDateKeySnoc(ms: seq<WindowMessage>, dateKey: WindowMessage -> string, m: WindowMessage, k: string)
    ensures WithDateKey(ms + [m], dateKey, k) == WithDateKey(ms, dateKey, k) + if dateKey(m) == k then [m] else []
  {
    assert (ms + [m])[..|ms|] == ms;
  }

  /** No two groups share a key. */
  predicate DistinctKeys(groups: seq<(string, seq<WindowMessage>)>)
  {
    forall i, j :: 0 <= i < j < |groups| ==> groups[i].0 != groups[j].0
  }

  /** Each group is non-empty and holds the messages of `ms` with its key. */
  predicate ExactGroups(groups: seq<(string, seq<WindowMessage>)>, ms: seq<WindowMessage>, dateKey: WindowMessage -> string)
  {
    forall i :: 0 <= i < |groups| ==> groups[i].1 != [] && groups[i].1 == WithDateKey(ms, dateKey, groups[i].0)
  }

  /** Every message's key has a group. */
  predicate CoversKeys(groups: seq<(string, seq<WindowMessage>)>, ms: seq<WindowMessage>, dateKey: WindowMessage -> string)
  {
    forall j :: 0 <= j < |ms| ==> IndexOfKey(groups, dateKey(ms[j])) < |groups|
  }

  /** Every group's key occurs in `ms`, and the groups follow the order of their keys' first occurrences. */
  predicate OrderedKeys(groups: seq<(string, seq<WindowMessage>)>, ms: seq<WindowMessage>, dateKey: WindowMessage -> string)
  {
    && (forall i :: 0 <= i < |groups| ==> FirstWithKey(ms, dateKey, groups[i].0) < |ms|)
    && (forall i, j :: 0 <= i < j < |groups| ==>
          FirstWithKey(ms, dateKey, groups[i].0) < FirstWithKey(ms, dateKey, groups[j].0))
  }

  /** The groups of a prefix `ms` of the messages. */
  predicate GroupsOf(groups: seq<(string, seq<WindowMessage>)>, ms: seq<WindowMessage>, dateKey: WindowMessage -> string)
  {
    DistinctKeys(groups) && ExactGroups(groups, ms, dateKey) && CoversKeys(groups, ms, dateKey) && OrderedKeys(groups, ms, dateKey)
  }

  /** One step of the reduce: `if (!groups[date]) groups[date] = []; groups[date].push(message)`. */
  function AddToGroup(groups: seq<(string, seq<WindowMessage>)>, date: string, message: WindowMessage)
    : (g: seq<(string, seq<WindowMessage>)>)
    ensures var i := IndexOfKey(groups, date);
            && |g| == (if i == |groups| then |groups| + 1 else |groups|)
            && (forall j :: 0 <= j < |groups| ==> g[j].0 == groups[j].0)
            && (forall j :: 0 <= j < |groups| && j != i ==> g[j] == groups[j])
            && g[i] == (date, if i < |groups| then groups[i].1 + [message] else [message])
  {
    var i := IndexOfKey(groups, date);
    if i == |groups| then groups + [(date, [message])] else groups[i := (date, groups[i].1 + [message])]
  }

  lemma DistinctKeysSnoc(groups: seq<(string, seq<WindowMessage>)>, date: string, m: WindowMessage)
    requires DistinctKeys(groups)
    ensures DistinctKeys(AddToGroup(groups, date, m))
  {
  }

  /** A key without a group occurs in no message of a covered prefix. */
  lemma NewKeyAbsent(groups: seq<(string, seq<WindowMessage>)>, ms: seq<WindowMessage>, dateKey: WindowMessage -> string, date: string)
    requires CoversKeys(groups, ms, dateKey) && IndexOfKey(groups, date) == |groups|
    ensures forall j :: 0 <= j < |ms| ==> dateKey(ms[j]) != date
  {
    forall j | 0 <= j < |ms| ensures dateKey(ms[j]) != date {
      assert groups[IndexOfKey(groups, dateKey(ms[j]))].0 == dateKey(ms[j]);
    }
  }

  lemma ExactGroupsSnoc(groups: seq<(string, seq<WindowMessage>)>, ms: seq<WindowMessage>, dateKey: WindowMessage -> string, m: WindowMessage)
    requires DistinctKeys(groups) && ExactGroups(groups, ms, dateKey) && CoversKeys(groups, ms, dateKey)
    ensures ExactGroups(AddToGroup(groups, dateKey(m), m), ms + [m], dateKey)
  {
    var i := IndexOfKey(groups, dateKey(m));
    var g := AddToGroup(groups, dateKey(m), m);
    if i == |groups| {
      NewKeyAbsent(groups, ms, dateKey, dateKey(m));
      WithDateKeyNone(ms, dateKey, dateKey(m));
    }
    forall j | 0 <= j < |g| ensures g[j].1 != [] && g[j].1 == WithDateKey(ms + [m], dateKey, g[j].0) {
      WithDateKeySnoc(ms, dateKey, m, g[j].0);
    }
  }

  lemma CoversKeysSnoc(groups: seq<(string, seq<WindowMessage>)>, ms: seq<WindowMessage>, dateKey: WindowMessage -> string, m: WindowMessage)
    requires CoversKeys(groups, ms, dateKey)
    ensures CoversKeys(AddToGroup(groups, dateKey(m), m), ms + [m], dateKey)
  {
    var g := AddToGroup(groups, dateKey(m), m);
    var ms' := ms + [m];
    forall j | 0 <= j < |ms'| ensures IndexOfKey(g, dateKey(ms'[j])) < |g| {
      if j < |ms| {
        assert ms'[j] == ms[j];
        assert g[IndexOfKey(groups, dateKey(ms[j]))].0 == dateKey(ms'[j]);
      } else {
        assert g[IndexOfKey(groups, dateKey(m))].0 == dateKey(m);
      }
    }
  }

  lemma OrderedKeysSnoc(groups: seq<(string, seq<WindowMessage>)>, ms: seq<WindowMessage>, dateKey: WindowMessage -> string, m: WindowMessage)
    requires OrderedKeys(groups, ms, dateKey) && CoversKeys(groups, ms, dateKey)
    ensures OrderedKeys(AddToGroup(groups, dateKey(m), m), ms + [m], dateKey)
  {
    var i := IndexOfKey(groups, dateKey(m));
    var g := AddToGroup(groups, dateKey(m), m);
    if i == |groups| {
      NewKeyAbsent(groups, ms, dateKey, dateKey(m));
      FirstWithKeyIs(ms, dateKey, dateKey(m), |ms|);
    }
    forall j | 0 <= j < |g|
      ensures FirstWithKey(ms + [m], dateKey, g[j].0) == if j < |groups| then FirstWithKey(ms, dateKey, g[j].0) else |ms|
    {
      FirstWithKeySnoc(ms, dateKey, m, g[j].0);
    }
  }

  lemma GroupsOfSnoc(groups: seq<(string, seq<WindowMessage>)>, ms: seq<WindowMessage>,
                     dateKey: WindowMessage -> string, m: WindowMessage)
    requires GroupsOf(groups, ms, dateKey)
    ensures GroupsOf(AddToGroup(groups, dateKey(m), m), ms + [m], dateKey)
  {
    DistinctKeysSnoc(groups, dateKey(m), m);
    ExactGroupsSnoc(groups, ms, dateKey, m);
    CoversKeysSnoc(groups, ms, dateKey, m);
    OrderedKeysSnoc(groups, ms, dateKey, m);
  }

  lemma PrefixSnoc(ms: seq<WindowMessage>, n: nat)
    requires n <= |ms|
    ensures n < |ms| ==> ms[..n + 1] == ms[..n] + [ms[n]]
    ensures n == |ms| ==> ms[..n] == ms
  {
  }

  /** What the groups of the whole list promise, stated without the helper predicates. */
  lemma GroupsOfMeaning(groups: seq<(string, seq<WindowMessage>)>, messages: seq<WindowMessage>, dateKey: WindowMessage -> string)
    requires GroupsOf(groups, messages, dateKey)
    ensures forall i, j :: 0 <= i < j < |groups| ==> groups[i].0 != groups[j].0
    ensures forall i :: 0 <= i < |groups| ==> groups[i].1 != [] && groups[i].1 == WithDateKey(messages, dateKey, groups[i].0)
    ensures forall m :: m in messages ==> exists i :: 0 <= i < |groups| && groups[i].0 == dateKey(m)
    ensures forall i, j :: 0 <= i < |groups| && 0 <= j < |messages| ==>
              (messages[j] in groups[i].1 <==> groups[i].0 == dateKey(messages[j]))
    ensures forall i, j :: 0 <= i < j < |groups| ==>
              FirstWithKey(messages, dateKey, groups[i].0) < FirstWithKey(messages, dateKey, groups[j].0)
  {
    forall m | m in messages ensures exists i :: 0 <= i < |groups| && groups[i].0 == dateKey(m) {
      var j :| 0 <= j < |messages| && messages[j] == m;
      assert groups[IndexOfKey(groups, dateKey(m))].0 == dateKey(m);
    }
    forall i, j | 0 <= i < |groups| && 0 <= j < |messages|
      ensures messages[j] in groups[i].1 <==> groups[i].0 == dateKey(messages[j])
    {
      WithDateKeyMembers(messages, dateKey, groups[i].0, messages[j]);
    }
  }

  /**
   * The `messages.reduce` that groups the list by date key: one group per
   * key, in order of the key's first occurrence, each holding exactly the
   * messages with that key in their original order; a message is in a group
   * exactly when the group's key is its own. `Object.keys` lists string
   * keys in insertion order except keys that are array indices, which come
   * first in numeric order; the keys here come from `toDateString()`
   * ("Tue Oct 14 2025"), which is never an array index, so insertion order
   * is the order the page renders.
   */
  method GroupByDate(messages: seq<WindowMessage>, dateKey: WindowMessage -> string)
    returns (groups: seq<(string, seq<WindowMessage>)>)
    ensures forall i, j :: 0 <= i < j < |groups| ==> groups[i].0 != groups[j].0
    ensures forall i :: 0 <= i < |groups| ==> groups[i].1 != [] && groups[i].1 == WithDateKey(messages, dateKey, groups[i].0)
    ensures forall m :: m in messages ==> exists i :: 0 <= i < |groups| && groups[i].0 == dateKey(m)
    ensures forall i, j :: 0 <= i < |groups| && 0 <= j < |messages| ==>
              (messages[j] in groups[i].1 <==> groups[i].0 == dateKey(messages[j]))
    ensures forall i, j :: 0 <= i < j < |groups| ==>
              FirstWithKey(messages, dateKey, groups[i].0) < FirstWithKey(messages, dateKey, groups[j].0)
  {
    groups := [];
    var n := 0;
    while n < |messages|
      invariant 0 <= n <= |messages|
      invariant GroupsOf(groups, messages[..n], dateKey)
    {
      var message := messages[n];
      var date := dateKey(message);
      GroupsOfSnoc(groups, messages[..n], dateKey, message);
      groups := AddToGroup(groups, date, message);
      PrefixSnoc(messages, n);
      n := n + 1;
    }
    PrefixSnoc(messages, n);
    GroupsOfMeaning(groups, messages, dateKey);
  }

  /** The state of one open chat window. */
  class Window {
    const chatId: string
    const me: UserId
    const otherId: UserId
    var messages: seq<WindowMessage>
    var newMessage: string
    var sending: bool
    var requests: seq<Request>

    constructor (chatId: string, me: UserId, otherId: UserId)
      ensures this.chatId == chatId && this.me == me && this.otherId == otherId
      ensures messages == [] && newMessage == "" && !sending && requests == []
    {
      this.chatId, this.me, this.otherId := chatId, me, otherId;
      messages, newMessage, sending, requests := [], "", false, [];
    }

    /** The `receiveMessage` listener, appending to the `messages` state. */
    method OnReceiveMessage(data: Incoming, localId: string, now: int)
      modifies this
      ensures messages == Receive(old(messages), chatId, data, localId, now)
      ensures newMessage == old(newMessage) && sending == old(sending) && requests == old(requests)
    {
      if data.chatId == chatId {
        var createdAt := match data.timestamp case Some(t) => t case None => now;
        messages := messages + [WindowMessage(localId, data.chatId, Populated(data.senderId), data.message, createdAt)];
      }
    }

    /**
     * `handleSendMessage`. A blank input does nothing. Otherwise the trimmed
     * text is posted; `saved` is the stored message the API answers with, or
     * `None` when the call throws. After a successful save the message is
     * shown, emitted on the socket only if it is `connected`, and the input
     * is cleared; after a failure the input is kept.
     */
    method HandleSendMessage(saved: Option<WindowMessage>, connected: bool)
      modifies this
      ensures Trim(old(newMessage)) == [] ==>
                && messages == old(messages) && newMessage == old(newMessage)
                && sending == old(sending) && requests == old(requests)
      ensures Trim(old(newMessage)) != [] ==>
                var text := Trim(old(newMessage));
                && requests == old(requests) + [PostMessage(chatId, otherId, text)]
                                 + (if saved.Some? && connected
                                    then [EmitSendMessage(Relay.MessagePayload(otherId, text, me, chatId))]
                                    else [])
                && messages == old(messages) + (if saved.Some? then [saved.value] else [])
                && newMessage == (if saved.Some? then "" else old(newMessage))
                && !sending
    {
      if Trim(newMessage) == [] {
        return;
      }
      var messageToSend := Trim(newMessage);
      sending := true;
      requests := requests + [PostMessage(chatId, otherId, messageToSend)];
      match saved {
        case Some(data) =>
          messages := messages + [data];
          if connected {
            requests := requests + [EmitSendMessage(Relay.MessagePayload(otherId, messageToSend, me, chatId))];
          }
          newMessage := "";
        case None =>
      }
      sending := false;
    }
  }

  /**
   * The send guard: nothing is posted or emitted for blank input, and what
   * is posted is the input with its surrounding white space removed.
   */
  lemma SendGuard(input: string)
    ensures Trim(input) == [] <==> forall k :: 0 <= k < |input| ==> IsWhiteSpace(input[k])
    ensures Trim(Trim(input)) == Trim(input)
  {
    TrimBlank(input);
    TrimIdempotent(input);
  }
}
