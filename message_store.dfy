/** The web client's channel-message cache (frontend/src/store/messageStore.ts). */
module MessageStore {
  import opened Common
  import opened Sequences
  import opened KeyedLists

  /** The scalar fields of a cached message; author, reactions and replies
      are nested payload and are not modelled. */
  datatype ClientMessage = ClientMessage(id: string, content: string, authorId: string, channelId: string,
                                         createdAt: string, edited: bool)

  /** A `Partial<Message>`: each field is either left out or given. */
  datatype MessageUpdates = MessageUpdates(id: Field<string>, content: Field<string>, authorId: Field<string>,
                                           channelId: Field<string>, createdAt: Field<string>, edited: Field<bool>)

  const NoUpdates := MessageUpdates(Absent, Absent, Absent, Absent, Absent, Absent)

  /** `{ ...msg, ...updates }`: a given field overrides, a missing one keeps the old value. */
  function Merge(msg: ClientMessage, u: MessageUpdates): (r: ClientMessage)
    ensures u.id.Present? ==> r.id == u.id.value
    ensures u.id.Absent? ==> r.id == msg.id
    ensures u.content.Present? ==> r.content == u.content.value
    ensures u.content.Absent? ==> r.content == msg.content
    ensures u.edited.Present? ==> r.edited == u.edited.value
    ensures u.edited.Absent? ==> r.edited == msg.edited
    ensures u.authorId.Present? ==> r.authorId == u.authorId.value
    ensures u.authorId.Absent? ==> r.authorId == msg.authorId
    ensures u.channelId.Present? ==> r.channelId == u.channelId.value
    ensures u.channelId.Absent? ==> r.channelId == msg.channelId
    ensures u.createdAt.Present? ==> r.createdAt == u.createdAt.value
    ensures u.createdAt.Absent? ==> r.createdAt == msg.createdAt
  {
    ClientMessage(Assign(msg.id, u.id), Assign(msg.content, u.content), Assign(msg.authorId, u.authorId),
                  Assign(msg.channelId, u.channelId), Assign(msg.createdAt, u.createdAt), Assign(msg.edited, u.edited))
  }

  /** Merging nothing changes nothing, and merging the same updates twice is merging them once. */
  lemma MergeLaws(msg: ClientMessage, u: MessageUpdates)
    ensures Merge(msg, NoUpdates) == msg
    ensures Merge(Merge(msg, u), u) == Merge(msg, u)
  {
  }

  /** The record after `updateMessage(channelId, messageId, updates)`. */
  function Updated(m: Lists<ClientMessage>, channelId: string, messageId: string, u: MessageUpdates): (r: Lists<ClientMessage>)
    ensures channelId in r && Elsewhere(m, r, channelId)
    ensures (channelId !in m || m[channelId].None?) ==> r[channelId] == None
    ensures channelId in m && m[channelId].Some? ==>
      var xs := m[channelId].value;
      r[channelId].Some? && |r[channelId].value| == |xs| &&
      forall i :: 0 <= i < |xs| ==> r[channelId].value[i] == if xs[i].id == messageId then Merge(xs[i], u) else xs[i]
  {
    Patch(m, channelId, (x: ClientMessage) => x.id == messageId, (x: ClientMessage) => Merge(x, u))
  }

  /** The record after `deleteMessage(channelId, messageId)`. */
  function Deleted(m: Lists<ClientMessage>, channelId: string, messageId: string): (r: Lists<ClientMessage>)
    ensures channelId in r && Elsewhere(m, r, channelId)
    ensures (channelId !in m || m[channelId].None?) ==> r[channelId] == None
    ensures channelId in m && m[channelId].Some? ==>
      r[channelId].Some? && forall x :: x in r[channelId].value <==> x in m[channelId].value && x.id != messageId
  {
    Prune(m, channelId, (x: ClientMessage) => x.id != messageId)
  }

  /** Deleting keeps the relative order of what remains: deleting from a
      concatenation deletes from each part. */
  lemma DeletedKeepsOrder(m: Lists<ClientMessage>, channelId: string, messageId: string, a: seq<ClientMessage>, b: seq<ClientMessage>)
    requires channelId in m && m[channelId] == Some(a + b)
    ensures Deleted(Put(m, channelId, a), channelId, messageId)[channelId].value +
            Deleted(Put(m, channelId, b), channelId, messageId)[channelId].value ==
            Deleted(m, channelId, messageId)[channelId].value
  {
    PruneKeepsOrder(m, channelId, (x: ClientMessage) => x.id != messageId, a, b);
  }

  /** Adding a message whose id the channel's list does not hold and then
      deleting that id gives back the list; the record itself comes back when
      the channel already had a list. */
  lemma AddThenDeleteRestores(m: Lists<ClientMessage>, channelId: string, msg: ClientMessage)
    requires forall y :: y in ListOf(m, channelId) ==> y.id != msg.id
    ensures Deleted(Append(m, channelId, msg), channelId, msg.id)[channelId] == Some(ListOf(m, channelId))
    ensures channelId in m && m[channelId].Some? ==> Deleted(Append(m, channelId, msg), channelId, msg.id) == m
  {
    AppendThenPrune(m, channelId, msg, (x: ClientMessage) => x.id != msg.id);
  }

  /** `useMessageStore`. */
  class MessageState {
    var messages: Lists<ClientMessage>

    constructor ()
      ensures messages == map[]
    {
      messages := map[];
    }

    /** `setMessages`: replaces the channel's list; every other channel is untouched. */
    method SetMessages(channelId: string, xs: seq<ClientMessage>)
      modifies this
      ensures messages == Put(old(messages), channelId, xs)
    {
      messages := Put(messages, channelId, xs);
    }

    /** `addMessage`: appends, a missing list counting as empty. */
    method AddMessage(channelId: string, msg: ClientMessage)
      modifies this
      ensures messages == Append(old(messages), channelId, msg)
    {
      messages := Append(messages, channelId, msg);
    }

    /** `updateMessage`: a channel with no list ends up holding `undefined`. */
    method UpdateMessage(channelId: string, messageId: string, updates: MessageUpdates)
      modifies this
      ensures messages == Updated(old(messages), channelId, messageId, updates)
    {
      messages := Updated(messages, channelId, messageId, updates);
    }

    /** `deleteMessage`: a channel with no list ends up holding `undefined`. */
    method DeleteMessage(channelId: string, messageId: string)
      modifies this
      ensures messages == Deleted(old(messages), channelId, messageId)
    {
      messages := Deleted(messages, channelId, messageId);
    }
  }
}
