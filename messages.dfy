/**
 * The message routes of src/server/routes/messages/index.ts: sending a message (which finds
 * or creates the conversation of the sorted participant pair, updates it, then appends the
 * message), marking a message read, the unread count, a user's conversations and the
 * history between two users. Path parameters are the numbers `Number(...)` gives.
 */
module Messages {
  import opened Common
  import opened Http
  import opened Schema
  import opened Database

  const UsersMissing: string := "Failed to send message: User(s) don't exist."
  const InactiveConversation: Failure := Failure("Error", "Cannot send message to inactive conversation")

  function Min(a: int, b: int): int { if a <= b then a else b }
  function Max(a: int, b: int): int { if a <= b then b else a }

  /** The handler's own invariant: at most one conversation under each ordered pair. */
  predicate OnePerPair(t: seq<Conversation>) {
    forall i, j | 0 <= i < j < |t| ::
      !(t[i].participantOne == t[j].participantOne && t[i].participantTwo == t[j].participantTwo)
  }

  /** The check of lines 63-67: the sender and receiver are the conversation's two participants. */
  predicate ValidParticipant(sender: int, receiver: int, c: Conversation) {
    (sender == c.participantOne && receiver == c.participantTwo)
    || (sender == c.participantTwo && receiver == c.participantOne)
  }

  /** A conversation found by the sorted pair always passes the participant check. */
  lemma ParticipantCheckHolds(t: seq<Conversation>, sender: int, receiver: int)
    requires FindConversation(t, Min(sender, receiver), Max(sender, receiver)).Some?
    ensures ValidParticipant(sender, receiver, FindConversation(t, Min(sender, receiver), Max(sender, receiver)).value)
  {
  }

  /** The sorted pair does not depend on who sends: A to B and B to A share one key. */
  lemma PairKeySymmetric(a: int, b: int)
    ensures Min(a, b) == Min(b, a) && Max(a, b) == Max(b, a)
    ensures Min(a, b) < Max(a, b) <==> a != b
  {
  }

  /** With conversations stored in ascending order, a pair of equal ids is never found. */
  lemma SelfPairAbsent(t: seq<Conversation>, next: int, userIds: seq<int>, a: int)
    requires ConversationsOk(t, next, userIds)
    ensures FindConversation(t, a, a).None?
  {
  }

  /** Touching a conversation keeps every pair, so the lookup finds the same conversation. */
  lemma {:induction false} FindAfterTouch(t: seq<Conversation>, id: int, m: Option<string>, at: Timestamp, one: int, two: int)
    ensures FindConversation(ConversationsTouched(t, id, m, at), one, two).Some? <==> FindConversation(t, one, two).Some?
    ensures FindConversation(t, one, two).Some? ==>
      FindConversation(ConversationsTouched(t, id, m, at), one, two).value.id == FindConversation(t, one, two).value.id
  {
    if t != [] {
      assert ConversationsTouched(t, id, m, at)[1..] == ConversationsTouched(t[1..], id, m, at);
      FindAfterTouch(t[1..], id, m, at, one, two);
    }
  }

  /** A conversation appended under a pair not yet present is the one the lookup finds. */
  lemma {:induction false} FindAfterAppend(t: seq<Conversation>, c: Conversation)
    requires FindConversation(t, c.participantOne, c.participantTwo).None?
    ensures FindConversation(t + [c], c.participantOne, c.participantTwo) == Some(c)
  {
    if t != [] {
      assert (t + [c])[1..] == t[1..] + [c];
      FindAfterAppend(t[1..], c);
    }
  }

  lemma OnePerPairTouch(t: seq<Conversation>, id: int, m: Option<string>, at: Timestamp)
    requires OnePerPair(t)
    ensures OnePerPair(ConversationsTouched(t, id, m, at))
  {
    var r := ConversationsTouched(t, id, m, at);
    assert forall i | 0 <= i < |t| :: r[i].participantOne == t[i].participantOne && r[i].participantTwo == t[i].participantTwo;
  }

  lemma OnePerPairAppend(t: seq<Conversation>, c: Conversation)
    requires OnePerPair(t) && FindConversation(t, c.participantOne, c.participantTwo).None?
    ensures OnePerPair(t + [c])
  {
  }

  /** The conversations table after a send has found or created the pair's conversation. */
  function Opened(t: seq<Conversation>, next: int, one: int, two: int, content: Option<string>, now: Timestamp)
    : seq<Conversation>
  {
    var found := FindConversation(t, one, two);
    if found.Some? then ConversationsTouched(t, found.value.id, content, now)
    else t + [NewConversation(next, one, two, content, now)]
  }

  /** The id of the conversation a send goes to. */
  function OpenedId(t: seq<Conversation>, next: int, one: int, two: int): int {
    var found := FindConversation(t, one, two);
    if found.Some? then found.value.id else next
  }

  /** A conversation the lookup finds is a stored one, so its key is among the table's keys. */
  lemma FoundIsStored(t: seq<Conversation>, one: int, two: int)
    requires FindConversation(t, one, two).Some?
    ensures FindConversation(t, one, two).value.id in ConversationIds(t)
  {
    var i :| 0 <= i < |t| && t[i] == FindConversation(t, one, two).value;
    assert ConversationIds(t)[i] == t[i].id;
  }

  /** Lines 78-89: no conversation under the pair yet, so insert one. */
  method StartConversation(db: Db, one: int, two: int, content: Option<string>, now: Timestamp)
    returns (r: Written<int>)
    requires db.Valid() && one <= two && one in UserIds(db.users) && two in UserIds(db.users)
    requires FindConversation(db.conversations, one, two).None?
    modifies db`conversations, db`nextConversationId
    ensures db.Valid()
    ensures db.nextConversationId == old(db.nextConversationId) + 1
    ensures OnePerPair(old(db.conversations)) ==> OnePerPair(db.conversations)
    ensures one == two ==>
      r == Violated(CheckViolation("conversations", "unique_participants")) && db.conversations == old(db.conversations)
    ensures one < two ==>
      && r == Written(old(db.nextConversationId))
      && db.conversations == old(db.conversations) + [NewConversation(old(db.nextConversationId), one, two, content, now)]
      && FindConversation(db.conversations, one, two).Some?
      && FindConversation(db.conversations, one, two).value.id == r.row
  {
    var result := db.InsertConversation(one, two, content, now);
    if result.Violated? {
      r := Violated(result.error);
      return;
    }
    FindAfterAppend(old(db.conversations), result.row);
    if OnePerPair(old(db.conversations)) {
      OnePerPairAppend(old(db.conversations), result.row);
    }
    r := Written(result.row.id);
  }

  /** Lines 90-98: the pair's conversation exists, so update it. */
  method ResumeConversation(db: Db, one: int, two: int, content: Option<string>, now: Timestamp)
    returns (cid: int)
    requires db.Valid() && FindConversation(db.conversations, one, two).Some?
    modifies db`conversations
    ensures db.Valid()
    ensures OnePerPair(old(db.conversations)) ==> OnePerPair(db.conversations)
    ensures cid == FindConversation(old(db.conversations), one, two).value.id
    ensures db.conversations == ConversationsTouched(old(db.conversations), cid, content, now)
    ensures FindConversation(db.conversations, one, two).Some? && FindConversation(db.conversations, one, two).value.id == cid
  {
    cid := FindConversation(db.conversations, one, two).value.id;
    FindAfterTouch(db.conversations, cid, content, now, one, two);
    if OnePerPair(db.conversations) {
      OnePerPairTouch(db.conversations, cid, content, now);
    }
    db.TouchConversation(cid, content, now);
  }

  /**
   * Lines 78-98: update the active conversation of the pair, or insert one. The insert fails
   * on `unique_participants` exactly when both participants are the same user.
   */
  method OpenConversation(db: Db, one: int, two: int, content: Option<string>, now: Timestamp)
    returns (r: Written<int>)
    requires db.Valid() && one <= two && one in UserIds(db.users) && two in UserIds(db.users)
    modifies db`conversations, db`nextConversationId
    ensures db.Valid()
    ensures OnePerPair(old(db.conversations)) ==> OnePerPair(db.conversations)
    // only an insert draws a conversation serial, and it does so even when it fails
    ensures db.nextConversationId ==
      old(db.nextConversationId) + (if FindConversation(old(db.conversations), one, two).None? then 1 else 0)
    ensures one == two ==>
      r == Violated(CheckViolation("conversations", "unique_participants")) && db.conversations == old(db.conversations)
    ensures one < two ==>
      && r == Written(OpenedId(old(db.conversations), old(db.nextConversationId), one, two))
      && db.conversations == Opened(old(db.conversations), old(db.nextConversationId), one, two, content, now)
      && FindConversation(db.conversations, one, two).Some?
      && FindConversation(db.conversations, one, two).value.id == r.row
      && r.row in ConversationIds(db.conversations)
  {
    SelfPairAbsent(db.conversations, db.nextConversationId, UserIds(db.users), one);
    if FindConversation(db.conversations, one, two).None? {
      r := StartConversation(db, one, two, content, now);
    } else {
      var cid := ResumeConversation(db, one, two, content, now);
      r := Written(cid);
    }
    if r.Written? {
      FoundIsStored(db.conversations, one, two);
    }
  }

  /**
   * Lines 78-110, once both users exist and the pair has no inactive conversation: open the
   * conversation, then append the message.
   */
  method Deliver(db: Db, senderId: int, receiverId: int, content: Option<string>, now: Timestamp)
    returns (out: Outcome<Body<Message>>)
    requires db.Valid() && senderId in UserIds(db.users) && receiverId in UserIds(db.users)
    requires var found := FindConversation(db.conversations, Min(senderId, receiverId), Max(senderId, receiverId));
      found.None? || found.value.isActive
    modifies db`conversations, db`nextConversationId, db`messages, db`nextMessageId
    ensures db.Valid()
    ensures OnePerPair(old(db.conversations)) ==> OnePerPair(db.conversations)
    ensures db.nextConversationId == old(db.nextConversationId)
      + (if FindConversation(old(db.conversations), Min(senderId, receiverId), Max(senderId, receiverId)).None? then 1 else 0)
    ensures db.nextMessageId == old(db.nextMessageId) + (if senderId != receiverId then 1 else 0)
    ensures senderId == receiverId ==>
      (out == NextError(CheckViolation("conversations", "unique_participants"))
       && db.conversations == old(db.conversations) && db.messages == old(db.messages))
    ensures var one, two := Min(senderId, receiverId), Max(senderId, receiverId);
      var cid := OpenedId(old(db.conversations), old(db.nextConversationId), one, two);
      senderId != receiverId ==>
      && db.conversations == Opened(old(db.conversations), old(db.nextConversationId), one, two, content, now)
      && FindConversation(db.conversations, one, two).Some? && FindConversation(db.conversations, one, two).value.id == cid
      && (content.None? ==> out == NextError(NotNullViolation("messages", "content")) && db.messages == old(db.messages))
      && (content.Some? ==>
            var m := Message(old(db.nextMessageId), senderId, receiverId, cid, content.value, now, None);
            out == Respond(200, Data(m)) && db.messages == old(db.messages) + [m])
  {
    var conversationId := OpenConversation(db, Min(senderId, receiverId), Max(senderId, receiverId), content, now);
    if conversationId.Violated? {
      out := NextError(conversationId.error);
      return;
    }
    var newMessage := db.InsertMessage(senderId, receiverId, conversationId.row, content, now);
    if newMessage.Violated? {
      out := NextError(newMessage.error);
      return;
    }
    out := Respond(200, Data(newMessage.row));
  }

  /** `checkUserExists(id)`: an absent body field finds no user. */
  predicate UserExists(users: seq<User>, id: Option<int>) {
    id.Some? && id.value in UserIds(users)
  }

  /**
   * `POST /` with body `{ senderId, receiverId, content }`, each field possibly absent. The
   * statements are not in a transaction: when the message insert fails, the conversation
   * change stays.
   */
  method Send(db: Db, senderId: Option<int>, receiverId: Option<int>, content: Option<string>, now: Timestamp)
    returns (out: Outcome<Body<Message>>)
    requires db.Valid()
    modifies db`conversations, db`nextConversationId, db`messages, db`nextMessageId
    ensures db.Valid()
    ensures OnePerPair(old(db.conversations)) ==> OnePerPair(db.conversations)
    ensures !(UserExists(db.users, senderId) && UserExists(db.users, receiverId)) ==>
      (out == ErrorReply(400, UsersMissing)
       && db.conversations == old(db.conversations) && db.messages == old(db.messages)
       && db.nextConversationId == old(db.nextConversationId) && db.nextMessageId == old(db.nextMessageId))
    ensures UserExists(db.users, senderId) && UserExists(db.users, receiverId) ==>
      var s, t := senderId.value, receiverId.value;
      var found := FindConversation(old(db.conversations), Min(s, t), Max(s, t));
      found.Some? && !found.value.isActive ==>
      (out == NextError(InactiveConversation)
       && db.conversations == old(db.conversations) && db.messages == old(db.messages)
       && db.nextConversationId == old(db.nextConversationId) && db.nextMessageId == old(db.nextMessageId))
    ensures UserExists(db.users, senderId) && receiverId == senderId ==>
      (out == NextError(CheckViolation("conversations", "unique_participants"))
       && db.conversations == old(db.conversations) && db.messages == old(db.messages)
       && db.nextConversationId == old(db.nextConversationId) + 1 && db.nextMessageId == old(db.nextMessageId))
    ensures UserExists(db.users, senderId) && UserExists(db.users, receiverId) && senderId != receiverId ==>
      var s, t := senderId.value, receiverId.value;
      var one, two := Min(s, t), Max(s, t);
      var found := FindConversation(old(db.conversations), one, two);
      var cid := OpenedId(old(db.conversations), old(db.nextConversationId), one, two);
      found.None? || found.value.isActive ==>
      && db.nextConversationId == old(db.nextConversationId) + (if found.None? then 1 else 0)
      && db.nextMessageId == old(db.nextMessageId) + 1
      && db.conversations == Opened(old(db.conversations), old(db.nextConversationId), one, two, content, now)
      && FindConversation(db.conversations, one, two).Some? && FindConversation(db.conversations, one, two).value.id == cid
      && (content.None? ==> out == NextError(NotNullViolation("messages", "content")) && db.messages == old(db.messages))
      && (content.Some? ==>
            var m := Message(old(db.nextMessageId), s, t, cid, content.value, now, None);
            out == Respond(200, Data(m)) && db.messages == old(db.messages) + [m])
  {
    if !(UserExists(db.users, senderId) && UserExists(db.users, receiverId)) {
      out := ErrorReply(400, UsersMissing);
      return;
    }
    var s, t := senderId.value, receiverId.value;
    var conversation := FindConversation(db.conversations, Min(s, t), Max(s, t));
    if conversation.Some? {
      ParticipantCheckHolds(db.conversations, s, t);
      if !conversation.value.isActive {
        out := NextError(InactiveConversation);
        return;
      }
    }
    out := Deliver(db, s, t, content, now);
  }

  /** Marking a message read writes `readAt` on that message and on no other. */
  lemma MarkReadOnlyThatMessage(t: seq<Message>, id: int, now: Timestamp)
    ensures |MessagesRead(t, id, now)| == |t|
    ensures forall i | 0 <= i < |t| ::
              MessagesRead(t, id, now)[i] == (if t[i].id == id then t[i].(readAt := Some(now)) else t[i])
  {
  }

  /** `PUT /:id/read`: sets `readAt` and answers 204 with the updated rows. */
  method MarkRead(db: Db, id: int, now: Timestamp) returns (out: Outcome<seq<Message>>)
    requires db.Valid()
    modifies db`messages
    ensures db.Valid()
    ensures db.messages == MessagesRead(old(db.messages), id, now)
    ensures out == Respond(204, MessagesWithId(db.messages, id))
  {
    var readMessage := db.MarkMessageRead(id, now);
    out := Respond(204, readMessage);
  }

  // ---------------------------------------------------------------------------------------
  // The read-only routes

  /** The messages to a user not yet read, in table order. */
  function Unread(t: seq<Message>, userId: int): (r: seq<Message>)
    ensures forall m :: m in r <==> m in t && m.receiverId == userId && m.readAt.None?
  {
    if t == [] then []
    else (if t[0].receiverId == userId && t[0].readAt.None? then [t[0]] else []) + Unread(t[1..], userId)
  }

  datatype Count = Count(count: nat)

  /** The positions of the table that hold a message to a user not yet read. */
  function UnreadPositions(t: seq<Message>, userId: int): set<nat> {
    set i: nat | i < |t| && t[i].receiverId == userId && t[i].readAt.None?
  }

  lemma {:induction false} UnreadAppend(t: seq<Message>, m: Message, userId: int)
    ensures Unread(t + [m], userId)
         == Unread(t, userId) + (if m.receiverId == userId && m.readAt.None? then [m] else [])
  {
    if t != [] {
      assert (t + [m])[1..] == t[1..] + [m];
      UnreadAppend(t[1..], m, userId);
    }
  }

  lemma UnreadPositionsAppend(p: seq<Message>, m: Message, userId: int)
    ensures UnreadPositions(p + [m], userId)
         == UnreadPositions(p, userId) + (if m.receiverId == userId && m.readAt.None? then {|p|} else {})
    ensures |p| !in UnreadPositions(p, userId)
  {
    var t := p + [m];
    forall i: nat | i < |p| ensures t[i] == p[i] { }
  }

  /** The unread list holds one element per unread position of the table. */
  lemma {:induction false} UnreadCountsPositions(t: seq<Message>, userId: int)
    ensures |Unread(t, userId)| == |UnreadPositions(t, userId)|
    decreases |t|
  {
    if t != [] {
      var p := t[..|t| - 1];
      var m := t[|t| - 1];
      assert t == p + [m];
      UnreadAppend(p, m, userId);
      UnreadCountsPositions(p, userId);
      UnreadPositionsAppend(p, m, userId);
    }
  }

  /** `GET /:userId/unread`: `{ count }`, the number of unread messages addressed to the user. */
  function UnreadCount(t: seq<Message>, userId: int): (r: Outcome<Count>)
    ensures r.Respond? && r.status == 200
    ensures r.body.count == |UnreadPositions(t, userId)|
  {
    UnreadCountsPositions(t, userId);
    Respond(200, Count(|Unread(t, userId)|))
  }

  predicate DistinctIds(t: seq<Message>) {
    forall i, j | 0 <= i < j < |t| :: t[i].id != t[j].id
  }

  /** Whether the message with a given id is one of a user's unread ones. */
  predicate IsUnreadFor(t: seq<Message>, id: int, userId: int) {
    exists i | 0 <= i < |t| :: t[i].id == id && t[i].receiverId == userId && t[i].readAt.None?
  }

  lemma ReadAbsentId(t: seq<Message>, id: int, now: Timestamp)
    requires forall i | 0 <= i < |t| :: t[i].id != id
    ensures MessagesRead(t, id, now) == t
  {
  }

  /**
   * Marking a message read lowers the receiver's unread count by one when it was unread for
   * them, and leaves every count alone otherwise.
   */
  lemma {:induction false} MarkReadCount(t: seq<Message>, id: int, now: Timestamp, userId: int)
    requires DistinctIds(t)
    ensures |Unread(MessagesRead(t, id, now), userId)| ==
      |Unread(t, userId)| - (if IsUnreadFor(t, id, userId) then 1 else 0)
  {
    if t != [] {
      var r := MessagesRead(t, id, now);
      assert r[1..] == MessagesRead(t[1..], id, now);
      if t[0].id == id {
        assert forall i | 0 <= i < |t[1..]| :: t[1..][i].id != id by {
          forall i | 0 <= i < |t[1..]|
            ensures t[1..][i].id != id
          {
            assert t[1..][i] == t[i + 1];
          }
        }
        ReadAbsentId(t[1..], id, now);
        assert r[1..] == t[1..];
        assert IsUnreadFor(t, id, userId) <==> t[0].receiverId == userId && t[0].readAt.None?;
      } else {
        MarkReadCount(t[1..], id, now, userId);
        assert IsUnreadFor(t, id, userId) <==> IsUnreadFor(t[1..], id, userId) by {
          if IsUnreadFor(t, id, userId) {
            var i :| 0 <= i < |t| && t[i].id == id && t[i].receiverId == userId && t[i].readAt.None?;
            assert t[1..][i - 1] == t[i];
          }
          if IsUnreadFor(t[1..], id, userId) {
            var i :| 0 <= i < |t[1..]| && t[1..][i].id == id && t[1..][i].receiverId == userId && t[1..][i].readAt.None?;
            assert t[i + 1] == t[1..][i];
          }
        }
      }
    }
  }

  /** The conversations a user takes part in, in table order. */
  function Chats(t: seq<Conversation>, userId: int): (r: seq<Conversation>)
    ensures forall c :: c in r <==> c in t && (c.participantOne == userId || c.participantTwo == userId)
    ensures |r| <= |t|
  {
    if t == [] then []
    else (if t[0].participantOne == userId || t[0].participantTwo == userId then [t[0]] else [])
         + Chats(t[1..], userId)
  }

  datatype UserConversations = UserConversations(usersConversations: seq<Conversation>)

  /** `GET /:userId/chats`: 200 with `{ usersConversations }`, the user's conversations. */
  function ChatsRoute(t: seq<Conversation>, userId: int): (r: Outcome<UserConversations>)
    ensures r.Respond? && r.status == 200
    ensures forall c :: c in r.body.usersConversations <==>
      c in t && (c.participantOne == userId || c.participantTwo == userId)
  {
    Respond(200, UserConversations(Chats(t, userId)))
  }

  /** The messages exchanged between two users, in either direction, newest first. */
  function Between(t: seq<Message>, me: int, them: int): (r: seq<Message>)
    ensures forall m :: m in r <==> m in t && ((m.senderId == me && m.receiverId == them)
                                              || (m.senderId == them && m.receiverId == me))
  {
    if t == [] then []
    else Between(t[1..], me, them)
         + (if (t[0].senderId == me && t[0].receiverId == them) || (t[0].senderId == them && t[0].receiverId == me)
            then [t[0]] else [])
  }

  /**
   * `GET /chat/:myId/:theirId`: the page of the history between the two users, newest first,
   * with `limit` defaulting to 10 and `offset` to 0.
   */
  function ChatHistory(t: seq<Message>, me: int, them: int, limit: Option<string>, offset: Option<string>)
    : (r: Outcome<seq<Message>>)
    ensures r.Respond? ==> r.status == 200
    ensures r.Respond? ==> forall m | m in r.body :: m in Between(t, me, them)
    ensures limit.None? && offset.None? ==>
      var b := Between(t, me, them); r == Respond(200, if |b| <= 10 then b else b[..10])
  {
    match ListWindow(Between(t, me, them), limit, offset)
    case Rows(rows) => Respond(200, rows)
    case QueryError(e) => NextError(e)
  }

  /** A message stored last (the newest) heads the history of its two parties. */
  lemma {:induction false} BetweenNewestFirst(t: seq<Message>, m: Message, me: int, them: int)
    ensures Between(t + [m], me, them)
         == (if (m.senderId == me && m.receiverId == them) || (m.senderId == them && m.receiverId == me)
             then [m] else []) + Between(t, me, them)
  {
    if t != [] {
      assert (t + [m])[1..] == t[1..] + [m];
      BetweenNewestFirst(t[1..], m, me, them);
    }
  }

  /** Who asks is immaterial: both users see the same history. */
  lemma ChatHistorySymmetric(t: seq<Message>, me: int, them: int, limit: Option<string>, offset: Option<string>)
    ensures ChatHistory(t, me, them, limit, offset) == ChatHistory(t, them, me, limit, offset)
  {
    BetweenSymmetric(t, me, them);
  }

  lemma {:induction false} BetweenSymmetric(t: seq<Message>, me: int, them: int)
    ensures Between(t, me, them) == Between(t, them, me)
  {
    if t != [] {
      BetweenSymmetric(t[1..], me, them);
    }
  }

  /** With sender and receiver stored as an ordered pair, one conversation per pair is one per unordered pair. */
  lemma UnorderedPairUnique(t: seq<Conversation>, next: int, userIds: seq<int>, i: nat, j: nat)
    requires ConversationsOk(t, next, userIds) && OnePerPair(t)
    requires i < j < |t|
    ensures {t[i].participantOne, t[i].participantTwo} != {t[j].participantOne, t[j].participantTwo}
  {
    assert UniqueParticipants(t[i]) && UniqueParticipants(t[j]);
  }
}
