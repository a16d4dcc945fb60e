/**
 * messageController.js: direct conversations between users. Finding or opening a
 * conversation, a user's conversations, and appending a message with a notice to
 * the other participant.
 */
module MessageController {
  import opened Common
  import opened Models
  import opened Ordering
  import opened Store

  /**
   * The content of the recipient's notice. `req.user` carries only the id and the
   * role, so the interpolated username is always the text "undefined".
   */
  const MessageNotice: string := "undefined sent you a message"

  /** The query `{ participants: { $all: [a, b] } }`. */
  predicate Joins(c: Conversation, a: Id, b: Id)
  {
    a in c.participants && b in c.participants
  }

  /** `Conversation.findOne` with that query: the first stored conversation joining both users. */
  function ConversationWith(conversations: seq<Conversation>, a: Id, b: Id): (r: Option<nat>)
    ensures r.Some? ==> r.value < |conversations| && Joins(conversations[r.value], a, b)
    ensures r.Some? ==> forall j :: 0 <= j < r.value ==> !Joins(conversations[j], a, b)
    ensures r.None? <==> forall j :: 0 <= j < |conversations| ==> !Joins(conversations[j], a, b)
  {
    IndexWhere(conversations, (c: Conversation) => Joins(c, a, b))
  }

  /** The lookup does not depend on who asks: the same conversation is found in either order. */
  lemma ConversationWithSymmetric(conversations: seq<Conversation>, a: Id, b: Id)
    ensures ConversationWith(conversations, a, b) == ConversationWith(conversations, b, a)
  {
    var x := ConversationWith(conversations, a, b);
    var y := ConversationWith(conversations, b, a);
    if x.Some? && y.Some? {
      if x.value < y.value {
        assert Joins(conversations[x.value], b, a);
      } else if y.value < x.value {
        assert Joins(conversations[y.value], a, b);
      }
    } else if x.Some? {
      assert Joins(conversations[x.value], b, a);
    } else if y.Some? {
      assert Joins(conversations[y.value], a, b);
    }
  }

  /**
   * `createConversation` between `caller` and `recipient`: the first conversation
   * joining the two, in either order, is returned as stored; only when none exists
   * is a new one with participants [caller, recipient] and no messages stored.
   */
  method CreateConversation(db: Database, caller: Id, recipient: Id, now: int) returns (status: Status, conversation: Conversation)
    requires db.Valid()
    modifies db
    ensures db.Valid()
    ensures status == Ok
    ensures Joins(conversation, caller, recipient)
    ensures ConversationWith(old(db.conversations), caller, recipient).Some? ==>
              conversation == old(db.conversations)[ConversationWith(old(db.conversations), caller, recipient).value] &&
              db.Snapshot() == old(db.Snapshot())
    ensures ConversationWith(old(db.conversations), caller, recipient).None? ==>
              conversation == Conversation(old(db.nextId), [caller, recipient], [], now, now) &&
              db.Snapshot() == old(db.Snapshot()).(conversations := old(db.conversations) + [conversation],
                                                   nextId := old(db.nextId) + 1)
    ensures ConversationWith(db.conversations, caller, recipient).Some?
  {
    var found := ConversationWith(db.conversations, caller, recipient);
    if found.Some? {
      return Ok, db.conversations[found.value];
    }
    conversation := Conversation(db.nextId, [caller, recipient], [], now, now);
    AddConversation(db.Snapshot(), conversation);
    db.conversations := db.conversations + [conversation];
    db.nextId := db.nextId + 1;
    assert db.conversations[|db.conversations| - 1] == conversation;
    status := Ok;
  }

  /**
   * Opening the same conversation twice, from either side, stores at most one: the
   * second call finds what the first returned and changes nothing, so the store is
   * either unchanged or holds that one conversation more.
   */
  method CreateConversationTwice(db: Database, caller: Id, recipient: Id, now: int, later: int)
    returns (first: Conversation, second: Conversation)
    requires db.Valid()
    modifies db
    ensures db.Valid()
    ensures second == first
    ensures db.Snapshot() == old(db.Snapshot()) ||
            db.Snapshot() == old(db.Snapshot()).(conversations := old(db.conversations) + [first],
                                                 nextId := old(db.nextId) + 1)
  {
    ghost var before := db.conversations;
    var s1, s2;
    s1, first := CreateConversation(db, caller, recipient, now);
    ghost var between := db.Snapshot();
    if ConversationWith(before, caller, recipient).None? {
      ConversationWithAppended(before, first, caller, recipient);
    }
    ConversationWithSymmetric(db.conversations, caller, recipient);
    s2, second := CreateConversation(db, recipient, caller, later);
    assert db.Snapshot() == between;
  }

  /** A conversation joining two users, stored after none did, is the one the lookup finds. */
  lemma ConversationWithAppended(conversations: seq<Conversation>, c: Conversation, a: Id, b: Id)
    requires ConversationWith(conversations, a, b).None? && Joins(c, a, b)
    ensures ConversationWith(conversations + [c], a, b) == Some(|conversations|)
  {
    var all := conversations + [c];
    assert forall j :: 0 <= j < |conversations| ==> all[j] == conversations[j];
    assert all[|conversations|] == c;
  }

  function UpdatedAtOf(c: Conversation): real { c.updatedAt as real }

  /**
   * `getConversations`: exactly the conversations the user takes part in, each once,
   * the most recently updated first.
   */
  function GetConversations(conversations: seq<Conversation>, user: Id): (r: seq<Conversation>)
    ensures forall c :: c in r <==> c in conversations && user in c.participants
    ensures multiset(r) == multiset(Filter(conversations, (c: Conversation) => user in c.participants))
    ensures SortedDesc(r, UpdatedAtOf)
  {
    var mine := Filter(conversations, (c: Conversation) => user in c.participants);
    var r := SortDesc(mine, UpdatedAtOf);
    SameElements(r, mine);
    r
  }

  /** `participants.find(id => id.toString() !== req.user.id)`: the first participant that is not the caller. */
  function RecipientOf(participants: seq<Id>, caller: Id): (r: Option<Id>)
    ensures r.Some? ==> r.value in participants && r.value != caller
    ensures r.Some? ==> exists k :: 0 <= k < |participants| && participants[k] == r.value &&
                                    forall j :: 0 <= j < k ==> participants[j] == caller
    ensures r.None? <==> forall j :: 0 <= j < |participants| ==> participants[j] == caller
  {
    var k := IndexWhere(participants, (id: Id) => id != caller);
    if k.None? then None else Some(participants[k.value])
  }

  /**
   * `sendMessage` by `caller`: 404 for an unknown conversation. Otherwise one
   * message {sender = caller, content} is appended after the earlier ones and
   * `updatedAt` becomes now, with no check that the caller takes part. The notice
   * goes to the first other participant; when there is none its save fails (no
   * recipient), and the answer is 500 with the message already stored. The message
   * returned is the appended one.
   */
  method SendMessage(db: Database, caller: Id, conversationId: Id, content: string, now: int)
    returns (status: Status, latest: Option<Message>)
    requires db.Valid()
    modifies db
    ensures db.Valid()
    ensures FindConversation(old(db.conversations), conversationId).None? ==>
              status == NotFound && latest.None? && db.Snapshot() == old(db.Snapshot())
    ensures FindConversation(old(db.conversations), conversationId).Some? ==>
      var i := FindConversation(old(db.conversations), conversationId).value;
      var c := old(db.conversations)[i];
      var m := Message(caller, content, now);
      var stored := c.(messages := c.messages + [m], updatedAt := now);
      var recipient := RecipientOf(c.participants, caller);
      && (recipient.None? ==>
            status == ServerError && latest.None? &&
            db.Snapshot() == old(db.Snapshot()).(conversations := old(db.conversations)[i := stored]))
      && (recipient.Some? ==>
            status == Created && latest == Some(m) &&
            db.Snapshot() == old(db.Snapshot()).(
              conversations := old(db.conversations)[i := stored],
              notifications := old(db.notifications) +
                [Notification(old(db.nextId), recipient.value, None, MessageKind, MessageNotice, Some(conversationId), false, now)],
              nextId := old(db.nextId) + 1))
  {
    var found := FindConversation(db.conversations, conversationId);
    if found.None? {
      return NotFound, None;
    }
    var i := found.value;
    var c := db.conversations[i];
    var m := Message(caller, content, now);
    var stored := c.(messages := c.messages + [m], updatedAt := now);
    db.ReplaceConversation(i, stored);
    var recipient := RecipientOf(c.participants, caller);
    if recipient.None? {
      return ServerError, None;
    }
    var n := Notification(db.nextId, recipient.value, None, MessageKind, MessageNotice, Some(conversationId), false, now);
    db.InsertNotification(n);
    status, latest := Created, Some(stored.messages[|stored.messages| - 1]);
  }
}
