/**
 * The chat page of the frontend: the conversation id both participants
 * derive as `[a, b].sort().join('_')`, the choice of the other participant
 * of a chat, and the selection driven by a `userId` URL parameter. React's
 * state setters are modelled by returning the values they would be given.
 */
module ChatPage {
  import opened Wrappers
  import opened JsStrings

  type UserId = string

  /** A populated user reference (`_id`, `name`, `profilePic`). */
  datatype Person = Person(id: UserId, name: string, profilePic: string)

  /** One entry of the chat list: the latest message of a conversation, with both users populated. */
  datatype Chat = Chat(sender: Person, receiver: Person, message: string)

  /** What the page shows as selected: `selectedChat` and `otherUser`. */
  datatype Selection = Selection(chatId: Option<string>, other: Option<Person>)

  /**
   * `[a, b].sort()`: the default sort compares UTF-16 code units and is
   * stable, so `b` moves first only when it sorts strictly before `a`.
   */
  function SortPair(a: string, b: string): (r: (string, string))
    ensures multiset{r.0, r.1} == multiset{a, b}
    ensures !StringLess(r.1, r.0)
    ensures !StringLess(b, a) ==> r == (a, b)
  {
    StringLessStrictTotal(a, b);
    if StringLess(b, a) then (b, a) else (a, b)
  }

  /** `[a, b].sort().join('_')`. */
  function ChatIdOf(a: UserId, b: UserId): (r: string)
    ensures |r| == |a| + 1 + |b|
    ensures r == a + "_" + b || r == b + "_" + a
    ensures StringLess(a, b) ==> r == a + "_" + b
    ensures StringLess(b, a) ==> r == b + "_" + a
  {
    StringLessStrictTotal(a, b);
    var (x, y) := SortPair(a, b);
    x + "_" + y
  }

  /** The conversation id is the smaller id, then `_`, then the larger one. */
  lemma ChatIdLayout(a: UserId, b: UserId)
    ensures exists x, y ::
              && ChatIdOf(a, b) == x + "_" + y
              && ((x, y) == (a, b) || (x, y) == (b, a))
              && !StringLess(y, x)
  {
    StringLessStrictTotal(a, b);
    var (x, y) := SortPair(a, b);
    assert ChatIdOf(a, b) == x + "_" + y;
  }

  /** Both participants derive the same conversation id. */
  lemma ChatIdSymmetric(a: UserId, b: UserId)
    ensures ChatIdOf(a, b) == ChatIdOf(b, a)
  {
    StringLessStrictTotal(a, b);
  }

  /** The predicate of the `chats.find` call: `userId` is the chat's sender or receiver. */
  predicate Involves(chat: Chat, userId: UserId)
  {
    chat.sender.id == userId || chat.receiver.id == userId
  }

  /**
   * The other participant: the receiver when I sent the message, the sender
   * otherwise. For a chat I take part in, I and the other participant are
   * its two users, and the other one is not me unless I wrote to myself.
   */
  function OtherParticipant(chat: Chat, me: UserId): (other: Person)
    ensures other == chat.sender || other == chat.receiver
    ensures Involves(chat, me) ==> {me, other.id} == {chat.sender.id, chat.receiver.id}
    ensures chat.sender.id != chat.receiver.id && Involves(chat, me) ==> other.id != me
  {
    if chat.sender.id == me then chat.receiver else chat.sender
  }

  /**
   * `handleChatSelect`: it selects the other participant, and for a chat
   * the user takes part in, the conversation's own id, whichever of the two
   * sent its latest message.
   */
  function SelectChat(chat: Chat, me: UserId): (r: Selection)
    ensures r.other == Some(OtherParticipant(chat, me))
    ensures r.chatId.Some?
    ensures Involves(chat, me) ==> r.chatId == Some(ChatIdOf(chat.sender.id, chat.receiver.id))
  {
    ChatIdSymmetric(chat.sender.id, chat.receiver.id);
    var otherUserId := if chat.sender.id == me then chat.receiver.id else chat.sender.id;
    var otherUserData := OtherParticipant(chat, me);
    Selection(Some(ChatIdOf(me, otherUserId)), Some(otherUserData))
  }

  /** The sidebar row of a chat: its conversation id and whether it is highlighted as selected. */
  function SidebarRow(chat: Chat, me: UserId, selectedChat: Option<string>): (r: (string, bool))
    ensures r.1 <==> selectedChat == Some(r.0)
    ensures Involves(chat, me) ==> r.0 == ChatIdOf(chat.sender.id, chat.receiver.id)
  {
    ChatIdSymmetric(chat.sender.id, chat.receiver.id);
    var otherUserData := OtherParticipant(chat, me);
    var chatId := ChatIdOf(me, otherUserData.id);
    (chatId, selectedChat == Some(chatId))
  }

  /** Selecting a chat highlights that chat's sidebar row, and no row of another conversation. */
  lemma SelectionMatchesSidebar(chat: Chat, other: Chat, me: UserId)
    ensures SidebarRow(chat, me, SelectChat(chat, me).chatId).1
    ensures SidebarRow(other, me, SelectChat(chat, me).chatId).1
            <==> SidebarRow(other, me, None).0 == SidebarRow(chat, me, None).0
  {
  }

  /** `chats.find(...)`: the first chat that involves `userId`, if any. */
  function FindChatWith(chats: seq<Chat>, userId: UserId): (r: Option<Chat>)
    ensures r.None? <==> forall i :: 0 <= i < |chats| ==> !Involves(chats[i], userId)
    ensures r.Some? ==> exists k ::
              && 0 <= k < |chats| && chats[k] == r.value && Involves(chats[k], userId)
              && forall j :: 0 <= j < k ==> !Involves(chats[j], userId)
  {
    if chats == [] then None
    else if Involves(chats[0], userId) then Some(chats[0])
    else
      var r := FindChatWith(chats[1..], userId);
      assert forall j :: 1 <= j < |chats| ==> chats[j] == chats[1..][j - 1];
      r
  }

  /**
   * The effect at lines 20-26: with a truthy `userId` parameter and a
   * signed-in user, the selection becomes their conversation id (the same
   * from either side) and the selected user is kept; otherwise nothing
   * changes.
   */
  function UrlChatId(param: Option<string>, user: Option<UserId>, current: Selection): (r: Selection)
    ensures (param.Some? && param.value != "" && user.Some?)
            ==> r.chatId == Some(ChatIdOf(param.value, user.value)) && r.other == current.other
    ensures !(param.Some? && param.value != "" && user.Some?) ==> r == current
  {
    if param.Some? && param.value != "" && user.Some? then
      ChatIdSymmetric(user.value, param.value);
      current.(chatId := Some(ChatIdOf(user.value, param.value)))
    else current
  }

  /**
   * The effect at lines 63-73: with a truthy `userId` parameter and a
   * non-empty chat list, select the first chat that involves `userId`; with
   * no such chat, or no parameter, the selection does not change.
   */
  function UrlChatSelection(param: Option<string>, chats: seq<Chat>, me: UserId, current: Selection): (r: Selection)
    ensures !(param.Some? && param.value != "") ==> r == current
    ensures param.Some? && (forall i :: 0 <= i < |chats| ==> !Involves(chats[i], param.value)) ==> r == current
    ensures r == current || exists k ::
              && param.Some? && 0 <= k < |chats| && Involves(chats[k], param.value)
              && (forall j :: 0 <= j < k ==> !Involves(chats[j], param.value))
              && r == SelectChat(chats[k], me)
  {
    if param.Some? && param.value != "" && |chats| > 0 then
      match FindChatWith(chats, param.value)
      case Some(existingChat) => SelectChat(existingChat, me)
      case None => current
    else current
  }

  /** The URL lookup selects the first chat involving `userId`, or leaves the selection alone. */
  lemma UrlSelectionIsFirstMatch(userId: UserId, chats: seq<Chat>, me: UserId, current: Selection)
    requires userId != ""
    ensures (forall i :: 0 <= i < |chats| ==> !Involves(chats[i], userId))
            ==> UrlChatSelection(Some(userId), chats, me, current) == current
    ensures forall k :: 0 <= k < |chats| && Involves(chats[k], userId)
              && (forall j :: 0 <= j < k ==> !Involves(chats[j], userId))
              ==> UrlChatSelection(Some(userId), chats, me, current) == SelectChat(chats[k], me)
  {
    forall k | 0 <= k < |chats| && Involves(chats[k], userId)
      && (forall j :: 0 <= j < k ==> !Involves(chats[j], userId))
      ensures FindChatWith(chats, userId) == Some(chats[k])
    {
      var r := FindChatWith(chats, userId);
      var k' :| 0 <= k' < |chats| && chats[k'] == r.value && Involves(chats[k'], userId)
             && forall j :: 0 <= j < k' ==> !Involves(chats[j], userId);
      assert k' == k;
    }
  }

  /**
   * Reaching the page through a link with the other user's id selects the
   * same conversation as picking their chat from the list.
   */
  lemma UrlAndListAgree(chats: seq<Chat>, me: UserId, other: UserId, current: Selection, k: nat)
    requires other != "" && other != me
    requires forall i :: 0 <= i < |chats| ==> Involves(chats[i], me)
    requires k < |chats| && Involves(chats[k], other)
    ensures UrlChatSelection(Some(other), chats, me, current).chatId
         == UrlChatId(Some(other), Some(me), current).chatId
  {
    var c := FindChatWith(chats, other).value;
    assert Involves(c, me) && Involves(c, other);
    ChatIdSymmetric(me, other);
  }
}
