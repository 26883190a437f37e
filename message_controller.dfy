/**
 * The message controller of the backend: the record `sendMessage` stores,
 * and the de-duplication in `getUserChats` that keeps, per conversation,
 * the first message of a list the database returns newest first. The
 * database calls themselves are not modelled: their results are inputs.
 */
module MessageController {
  import opened Wrappers

  type UserId = string

  /** A stored message as the chat list reads it (sender and receiver by id). */
  datatype Message = Message(chatId: string, senderId: UserId, receiverId: UserId, message: string, createdAt: int)

  /** The JSON body of `POST /api/messages`; a `senderId` a client puts there is ignored. */
  datatype SendBody = SendBody(receiverId: UserId, message: string, chatId: string, senderId: Option<UserId>)

  /** The fields handed to `Message.create`. */
  datatype NewMessage = NewMessage(chatId: string, senderId: UserId, receiverId: UserId, message: string)

  /** The record built in `sendMessage`: the sender is the authenticated user, the rest comes from the body. */
  function NewRecord(body: SendBody, authUser: UserId): (r: NewMessage)
    ensures r.senderId == authUser
    ensures r.chatId == body.chatId && r.receiverId == body.receiverId && r.message == body.message
  {
    NewMessage(body.chatId, authUser, body.receiverId, body.message)
  }

  /**
   * A body that claims a sender yields the same record as one that does
   * not: the claim is ignored.
   */
  lemma NewRecordSender(b1: SendBody, b2: SendBody, authUser: UserId)
    requires b1.(senderId := None) == b2.(senderId := None)
    ensures NewRecord(b1, authUser) == NewRecord(b2, authUser)
  {
  }

  /** The conversation ids occurring in a list of messages. */
  function ChatIds(ms: seq<Message>): set<string>
  {
    set m | m in ms :: m.chatId
  }

  /** Position of the first message of conversation `c`, or `|ms|` when there is none. */
  function FirstIndexOfChat(ms: seq<Message>, c: string): (k: nat)
    ensures k <= |ms|
    ensures k < |ms| ==> ms[k].chatId == c
    ensures forall j :: 0 <= j < k ==> ms[j].chatId != c
  {
    if ms == [] || ms[0].chatId == c then 0 else 1 + FirstIndexOfChat(ms[1..], c)
  }

  /** The messages of `ms` that open their conversation, in order. */
  function FirstOfEachChat(ms: seq<Message>): (r: seq<Message>)
    ensures |r| <= |ms|
    ensures forall m :: m in r ==> m in ms
    decreases |ms|
  {
    if ms == [] then []
    else
      var init, last := ms[..|ms| - 1], ms[|ms| - 1];
      if last.chatId in ChatIds(init) then FirstOfEachChat(init) else FirstOfEachChat(init) + [last]
  }

  lemma ChatIdsSnoc(ms: seq<Message>, m: Message)
    ensures ChatIds(ms + [m]) == ChatIds(ms) + {m.chatId}
  {
    assert forall x :: x in ms + [m] <==> x in ms || x == m;
  }

  /** Every conversation of the input is in the output, and no other. */
  lemma {:induction false} FirstOfEachCovers(ms: seq<Message>)
    ensures ChatIds(FirstOfEachChat(ms)) == ChatIds(ms)
    decreases |ms|
  {
    if ms != [] {
      var init, last := ms[..|ms| - 1], ms[|ms| - 1];
      assert ms == init + [last];
      FirstOfEachCovers(init);
      ChatIdsSnoc(init, last);
      if last.chatId !in ChatIds(init) {
        ChatIdsSnoc(FirstOfEachChat(init), last);
      }
    }
  }

  /** At most one message per conversation is kept. */
  lemma {:induction false} FirstOfEachUnique(ms: seq<Message>)
    ensures forall i, j :: 0 <= i < j < |FirstOfEachChat(ms)|
              ==> FirstOfEachChat(ms)[i].chatId != FirstOfEachChat(ms)[j].chatId
    decreases |ms|
  {
    if ms != [] {
      var init, last := ms[..|ms| - 1], ms[|ms| - 1];
      FirstOfEachUnique(init);
      FirstOfEachCovers(init);
      var r := FirstOfEachChat(init);
      if last.chatId !in ChatIds(init) {
        forall i | 0 <= i < |r| ensures r[i].chatId != last.chatId {
          assert r[i] in r;
        }
      }
    }
  }

  /** Where the first message of a conversation stands, once one more message is appended. */
  lemma FirstIndexSnoc(ms: seq<Message>, m: Message, c: string)
    ensures FirstIndexOfChat(ms + [m], c)
         == if c in ChatIds(ms) then FirstIndexOfChat(ms, c)
            else if c == m.chatId then |ms| else |ms| + 1
  {
    var s := ms + [m];
    var k := FirstIndexOfChat(ms, c);
    var ks := FirstIndexOfChat(s, c);
    if c in ChatIds(ms) {
      var w :| w in ms && w.chatId == c;
      var wi :| 0 <= wi < |ms| && ms[wi] == w;
      assert k < |ms|;
      assert s[k] == ms[k];
      assert ks == k;
    } else {
      assert forall j :: 0 <= j < |ms| ==> ms[j] in ms;
      assert forall j :: 0 <= j < |ms| ==> s[j].chatId != c;
      assert s[|ms|] == m;
    }
  }

  /**
   * The kept message of each conversation is its first occurrence in the
   * input (the most recent one, the input being sorted newest first), and
   * the output lists the conversations in order of first occurrence: it is
   * the subsequence of the input made of the first occurrences.
   */
  lemma {:induction false} FirstOfEachIsFirstOccurrences(ms: seq<Message>)
    ensures forall t :: 0 <= t < |FirstOfEachChat(ms)| ==>
              && FirstIndexOfChat(ms, FirstOfEachChat(ms)[t].chatId) < |ms|
              && FirstOfEachChat(ms)[t] == ms[FirstIndexOfChat(ms, FirstOfEachChat(ms)[t].chatId)]
    ensures forall t, u :: 0 <= t < u < |FirstOfEachChat(ms)| ==>
              FirstIndexOfChat(ms, FirstOfEachChat(ms)[t].chatId) < FirstIndexOfChat(ms, FirstOfEachChat(ms)[u].chatId)
    decreases |ms|
  {
    if ms != [] {
      var init, last := ms[..|ms| - 1], ms[|ms| - 1];
      assert ms == init + [last];
      FirstOfEachIsFirstOccurrences(init);
      FirstOfEachCovers(init);
      var r := FirstOfEachChat(init);
      var out := FirstOfEachChat(ms);
      forall t | 0 <= t < |r|
        ensures FirstIndexOfChat(ms, r[t].chatId) == FirstIndexOfChat(init, r[t].chatId)
      {
        assert r[t] in r;
        FirstIndexSnoc(init, last, r[t].chatId);
      }
      if last.chatId !in ChatIds(init) {
        FirstIndexSnoc(init, last, last.chatId);
        forall t | 0 <= t < |r| ensures FirstIndexOfChat(init, r[t].chatId) < |init| {
        }
      }
    }
  }

  /** A JavaScript `Map` from conversation id to message, as its insertion-ordered entries. */
  function Keys(chatsMap: seq<(string, Message)>): set<string>
  {
    set p | p in chatsMap :: p.0
  }

  /** The entries `chatsMap.set(m.chatId, m)` leaves for each message of `ms` in turn. */
  function Entries(ms: seq<Message>): (r: seq<(string, Message)>)
    ensures |r| == |ms|
    ensures forall j :: 0 <= j < |ms| ==> r[j] == (ms[j].chatId, ms[j])
  {
    seq(|ms|, j requires 0 <= j < |ms| => (ms[j].chatId, ms[j]))
  }

  /** One more message: kept when its chat is new, skipped otherwise. */
  lemma FirstOfEachSnoc(ms: seq<Message>, m: Message)
    ensures FirstOfEachChat(ms + [m])
         == if m.chatId in ChatIds(ms) then FirstOfEachChat(ms) else FirstOfEachChat(ms) + [m]
  {
    assert (ms + [m])[..|ms|] == ms;
  }

  /** One more chat gives one more entry at the end. */
  lemma EntriesSnoc(ms: seq<Message>, m: Message)
    ensures Entries(ms + [m]) == Entries(ms) + [(m.chatId, m)]
  {
  }

  lemma KeysOfEntries(ms: seq<Message>)
    ensures Keys(Entries(ms)) == ChatIds(ms)
  {
    var r := Entries(ms);
    forall c | c in ChatIds(ms) ensures c in Keys(r) {
      var m :| m in ms && m.chatId == c;
      var j :| 0 <= j < |ms| && ms[j] == m;
      assert r[j] in r;
    }
    forall c | c in Keys(r) ensures c in ChatIds(ms) {
      var p :| p in r && p.0 == c;
      var j :| 0 <= j < |r| && r[j] == p;
      assert ms[j] in ms;
    }
  }

  /**
   * The de-duplication loop of `getUserChats`: `messages.forEach` fills
   * `chatsMap` with the first message seen per `chatId`, then its values
   * are copied out in insertion order.
   */
  method UniqueChats(messages: seq<Message>) returns (chats: seq<Message>)
    ensures chats == FirstOfEachChat(messages)
    ensures forall i, j :: 0 <= i < j < |chats| ==> chats[i].chatId != chats[j].chatId
    ensures ChatIds(chats) == ChatIds(messages)
    ensures forall t :: 0 <= t < |chats| ==>
              && FirstIndexOfChat(messages, chats[t].chatId) < |messages|
              && chats[t] == messages[FirstIndexOfChat(messages, chats[t].chatId)]
    ensures forall t, u :: 0 <= t < u < |chats| ==>
              FirstIndexOfChat(messages, chats[t].chatId) < FirstIndexOfChat(messages, chats[u].chatId)
  {
    var chatsMap: seq<(string, Message)> := [];
    var i := 0;
    while i < |messages|
      invariant 0 <= i <= |messages|
      invariant chatsMap == Entries(FirstOfEachChat(messages[..i]))
      invariant Keys(chatsMap) == ChatIds(messages[..i])
    {
      var msg := messages[i];
      assert messages[..i + 1] == messages[..i] + [msg];
      ChatIdsSnoc(messages[..i], msg);
      FirstOfEachSnoc(messages[..i], msg);
      if msg.chatId !in Keys(chatsMap) {
        KeysOfEntries(FirstOfEachChat(messages[..i]));
        EntriesSnoc(FirstOfEachChat(messages[..i]), msg);
        chatsMap := chatsMap + [(msg.chatId, msg)];
        KeysOfEntries(FirstOfEachChat(messages[..i + 1]));
      }
      i := i + 1;
    }
    assert messages[..i] == messages;
    chats := seq(|chatsMap|, j requires 0 <= j < |chatsMap| => chatsMap[j].1);
    FirstOfEachUnique(messages);
    FirstOfEachCovers(messages);
    FirstOfEachIsFirstOccurrences(messages);
  }
}
