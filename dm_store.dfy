/** The web client's direct-message state: the conversation list, the open
    conversation and a per-conversation message cache (frontend/src/store/dmStore.ts). */
module DmStore {
  import opened Common
  import opened Sequences
  import opened KeyedLists

  /** The scalar fields of a cached direct message; the nested sender is not modelled. */
  datatype DmMessage = DmMessage(id: string, content: string, senderId: string, conversationId: string,
                                 createdAt: string, edited: bool)

  /** A `Partial<DMMessage>`. */
  datatype DmUpdates = DmUpdates(id: Field<string>, content: Field<string>, senderId: Field<string>,
                                 conversationId: Field<string>, createdAt: Field<string>, edited: Field<bool>)

  /** A conversation participant as the list payload carries it. */
  datatype Participant = Participant(userId: string, username: string)

  /** A conversation as the client holds it. `messages` is the preview list
      and `unreadCount` an optional field the list reads. */
  datatype ClientConversation = ClientConversation(id: string, isGroup: bool, name: Option<string>,
                                                   participants: seq<Participant>, messages: Option<seq<DmMessage>>,
                                                   updatedAt: string, unreadCount: Option<int>)

  /** `{ ...msg, ...updates }`. */
  function Merge(msg: DmMessage, u: DmUpdates): (r: DmMessage)
    ensures u.id.Present? ==> r.id == u.id.value
    ensures u.id.Absent? ==> r.id == msg.id
    ensures u.content.Present? ==> r.content == u.content.value
    ensures u.content.Absent? ==> r.content == msg.content
    ensures u.edited.Present? ==> r.edited == u.edited.value
    ensures u.edited.Absent? ==> r.edited == msg.edited
    ensures u.senderId.Present? ==> r.senderId == u.senderId.value
    ensures u.senderId.Absent? ==> r.senderId == msg.senderId
    ensures u.conversationId.Present? ==> r.conversationId == u.conversationId.value
    ensures u.conversationId.Absent? ==> r.conversationId == msg.conversationId
    ensures u.createdAt.Present? ==> r.createdAt == u.createdAt.value
    ensures u.createdAt.Absent? ==> r.createdAt == msg.createdAt
  {
    DmMessage(Assign(msg.id, u.id), Assign(msg.content, u.content), Assign(msg.senderId, u.senderId),
              Assign(msg.conversationId, u.conversationId), Assign(msg.createdAt, u.createdAt), Assign(msg.edited, u.edited))
  }

  /** The record after `updateMessage(conversationId, messageId, updates)`. */
  function Updated(m: Lists<DmMessage>, conversationId: string, messageId: string, u: DmUpdates): (r: Lists<DmMessage>)
    ensures conversationId in r && Elsewhere(m, r, conversationId)
    ensures (conversationId !in m || m[conversationId].None?) ==> r[conversationId] == None
    ensures conversationId in m && m[conversationId].Some? ==>
      var xs := m[conversationId].value;
      r[conversationId].Some? && |r[conversationId].value| == |xs| &&
      forall i :: 0 <= i < |xs| ==> r[conversationId].value[i] == if xs[i].id == messageId then Merge(xs[i], u) else xs[i]
  {
    Patch(m, conversationId, (x: DmMessage) => x.id == messageId, (x: DmMessage) => Merge(x, u))
  }

  /** The record after `deleteMessage(conversationId, messageId)`. */
  function Deleted(m: Lists<DmMessage>, conversationId: string, messageId: string): (r: Lists<DmMessage>)
    ensures conversationId in r && Elsewhere(m, r, conversationId)
    ensures (conversationId !in m || m[conversationId].None?) ==> r[conversationId] == None
    ensures conversationId in m && m[conversationId].Some? ==>
      r[conversationId].Some? &&
      forall x :: x in r[conversationId].value <==> x in m[conversationId].value && x.id != messageId
  {
    Prune(m, conversationId, (x: DmMessage) => x.id != messageId)
  }

  /** Deleting keeps the relative order of the remaining messages. */
  lemma DeletedKeepsOrder(m: Lists<DmMessage>, conversationId: string, messageId: string, a: seq<DmMessage>, b: seq<DmMessage>)
    requires conversationId in m && m[conversationId] == Some(a + b)
    ensures Deleted(Put(m, conversationId, a), conversationId, messageId)[conversationId].value +
            Deleted(Put(m, conversationId, b), conversationId, messageId)[conversationId].value ==
            Deleted(m, conversationId, messageId)[conversationId].value
  {
    PruneKeepsOrder(m, conversationId, (x: DmMessage) => x.id != messageId, a, b);
  }

  /** Adding a message with a fresh id and deleting that id gives back the list. */
  lemma AddThenDeleteRestores(m: Lists<DmMessage>, conversationId: string, msg: DmMessage)
    requires forall y :: y in ListOf(m, conversationId) ==> y.id != msg.id
    ensures Deleted(Append(m, conversationId, msg), conversationId, msg.id)[conversationId] == Some(ListOf(m, conversationId))
    ensures conversationId in m && m[conversationId].Some? ==> Deleted(Append(m, conversationId, msg), conversationId, msg.id) == m
  {
    AppendThenPrune(m, conversationId, msg, (x: DmMessage) => x.id != msg.id);
  }

  /** `useDMStore`. */
  class DmState {
    var conversations: seq<ClientConversation>
    var currentConversation: Option<ClientConversation>
    var messages: Lists<DmMessage>

    constructor ()
      ensures conversations == [] && currentConversation == None && messages == map[]
    {
      conversations, currentConversation, messages := [], None, map[];
    }

    /** `setConversations`: replaces the list wholesale. */
    method SetConversations(cs: seq<ClientConversation>)
      modifies this
      ensures conversations == cs && currentConversation == old(currentConversation) && messages == old(messages)
    {
      conversations := cs;
    }

    /** `setCurrentConversation`: changes only the open conversation. */
    method SetCurrentConversation(c: Option<ClientConversation>)
      modifies this
      ensures currentConversation == c && conversations == old(conversations) && messages == old(messages)
    {
      currentConversation := c;
    }

    /** `addConversation`: prepends, without checking for an entry with the same id. */
    method AddConversation(c: ClientConversation)
      modifies this
      ensures conversations == [c] + old(conversations)
      ensures currentConversation == old(currentConversation) && messages == old(messages)
    {
      conversations := [c] + conversations;
    }

    /** `setMessages`: replaces only that conversation's list. */
    method SetMessages(conversationId: string, xs: seq<DmMessage>)
      modifies this
      ensures messages == Put(old(messages), conversationId, xs)
      ensures conversations == old(conversations) && currentConversation == old(currentConversation)
    {
      messages := Put(messages, conversationId, xs);
    }

    /** `addMessage`: appends, a missing list counting as empty. */
    method AddMessage(conversationId: string, msg: DmMessage)
      modifies this
      ensures messages == Append(old(messages), conversationId, msg)
      ensures conversations == old(conversations) && currentConversation == old(currentConversation)
    {
      messages := Append(messages, conversationId, msg);
    }

    /** `updateMessage`: a conversation with no list ends up holding `undefined`. */
    method UpdateMessage(conversationId: string, messageId: string, updates: DmUpdates)
      modifies this
      ensures messages == Updated(old(messages), conversationId, messageId, updates)
      ensures conversations == old(conversations) && currentConversation == old(currentConversation)
    {
      messages := Updated(messages, conversationId, messageId, updates);
    }

    /** `deleteMessage`: a conversation with no list ends up holding `undefined`. */
    method DeleteMessage(conversationId: string, messageId: string)
      modifies this
      ensures messages == Deleted(old(messages), conversationId, messageId)
      ensures conversations == old(conversations) && currentConversation == old(currentConversation)
    {
      messages := Deleted(messages, conversationId, messageId);
    }
  }
}
