/** The direct-message sidebar list and its "new conversation" dialog
    (frontend/src/components/DMList.tsx). */
module DmList {
  import opened Common
  import opened DmStore

  /** `p.userId !== user?.id`: with nobody signed in every participant qualifies. */
  predicate IsOther(p: Participant, currentUser: Option<string>) {
    currentUser.None? || p.userId != currentUser.value
  }

  /** `participants.find(p => p.userId !== user?.id)`. */
  function FirstOther(ps: seq<Participant>, currentUser: Option<string>): (r: Option<nat>)
    ensures r.Some? ==> r.value < |ps| && IsOther(ps[r.value], currentUser) &&
                        forall j :: 0 <= j < r.value ==> !IsOther(ps[j], currentUser)
    ensures r.None? ==> forall j :: 0 <= j < |ps| ==> !IsOther(ps[j], currentUser)
  {
    if ps == [] then None
    else if IsOther(ps[0], currentUser) then Some(0)
    else
      var r := FirstOther(ps[1..], currentUser);
      if r.Some? then Some(r.value + 1) else None
  }

  /** `getConversationName`: a non-empty name wins; otherwise the username of
      the first other participant, unless there is none or it is empty. */
  function ConversationName(c: ClientConversation, currentUser: Option<string>): (n: string)
    ensures Given(c.name) ==> n == c.name.value
    ensures !Given(c.name) ==>
      (n == "Unknown User" && forall j :: 0 <= j < |c.participants| ==> !IsOther(c.participants[j], currentUser)) ||
      (exists k :: 0 <= k < |c.participants| && IsOther(c.participants[k], currentUser) &&
         (forall j :: 0 <= j < k ==> !IsOther(c.participants[j], currentUser)) &&
         n == if c.participants[k].username != "" then c.participants[k].username else "Unknown User")
  {
    if Given(c.name) then c.name.value
    else
      var o := FirstOther(c.participants, currentUser);
      if o.Some? && c.participants[o.value].username != "" then c.participants[o.value].username else "Unknown User"
  }

  const PreviewLength: nat := 50

  /** The first fifty UTF-16 code units, with "..." exactly when something
      was cut: the part kept is the longest prefix of the content that fits. */
  function Preview(content: string): (r: string)
    ensures Utf16Length(content) <= PreviewLength ==> r == content
    ensures Utf16Length(content) > PreviewLength ==>
      |r| >= 3 && r[|r| - 3..] == "..." &&
      var kept := r[..|r| - 3];
      |kept| < |content| && kept == content[..|kept|] &&
      Utf16Length(kept) <= PreviewLength && Utf16Length(content[..|kept| + 1]) > PreviewLength
  {
    if Utf16Length(content) <= PreviewLength then content
    else
      var kept := Utf16Prefix(content, PreviewLength);
      assert kept != content;
      var r := kept + "...";
      assert r[..|r| - 3] == kept;
      r
  }

  /** `getLastMessage`: the first message of the list payload (the newest, as
      the server sends one message ordered by creation time descending). */
  function LastMessage(c: ClientConversation): (r: string)
    ensures c.messages.None? || c.messages.value == [] ==> r == "No messages yet"
    ensures c.messages.Some? && c.messages.value != [] ==> r == Preview(c.messages.value[0].content)
  {
    if c.messages.None? || c.messages.value == [] then "No messages yet" else Preview(c.messages.value[0].content)
  }

  /** A preview shows the whole content or a cut-off prefix of it, never something else. */
  lemma PreviewIsPrefix(content: string)
    ensures Preview(content) == content ||
      (|Preview(content)| >= 3 && Preview(content) == content[..|Preview(content)| - 3] + "...")
    ensures |Preview(content)| <= PreviewLength + 3
  {
    var r := Preview(content);
    if Utf16Length(content) > PreviewLength {
      assert r == r[..|r| - 3] + r[|r| - 3..];
    }
  }

  /** Text inside the Basic Multilingual Plane is cut after fifty characters. */
  lemma PreviewBmp(content: string)
    requires forall i :: 0 <= i < |content| ==> content[i] as int < 0x1_0000
    ensures |content| <= PreviewLength ==> Preview(content) == content
    ensures |content| > PreviewLength ==> Preview(content) == content[..PreviewLength] + "..."
  {
    Utf16LengthBmp(content);
    if |content| > PreviewLength {
      var r := Preview(content);
      var kept := r[..|r| - 3];
      assert r == kept + "...";
      Utf16LengthBmp(kept);
      Utf16LengthBmp(content[..|kept| + 1]);
    }
  }

  /** An emoji outside the Basic Multilingual Plane counts twice: twenty-six
      of them are cut after twenty-five. */
  lemma PreviewCountsSurrogatePairs()
    ensures Preview(seq(26, _ => '\U{1F600}')) == seq(25, _ => '\U{1F600}') + "..."
  {
    var s := seq(26, _ => '\U{1F600}');
    AllAstralLength(s);
    var r := Preview(s);
    var kept := r[..|r| - 3];
    assert r == kept + "...";
    AllAstralLength(kept);
    AllAstralLength(s[..|kept| + 1]);
    assert |kept| == 25;
  }

  lemma {:induction false} AllAstralLength(s: string)
    requires forall i :: 0 <= i < |s| ==> s[i] == '\U{1F600}'
    ensures Utf16Length(s) == 2 * |s|
  {
    if s != [] {
      AllAstralLength(s[1..]);
    }
  }

  /** The unread badge: `conversation.unreadCount || 0`, shown when above
      zero, as "99+" above ninety-nine. */
  function UnreadBadge(unreadCount: Option<int>): (b: Option<string>)
    ensures b.Some? <==> unreadCount.Some? && unreadCount.value > 0
    ensures b.Some? ==> (b.value == "99+" <==> unreadCount.value > 99)
    ensures b.Some? && unreadCount.value <= 99 ==> 1 <= |b.value| <= 2 && forall i :: 0 <= i < |b.value| ==> '0' <= b.value[i] <= '9'
  {
    var count := if unreadCount.Some? then unreadCount.value else 0;
    if count <= 0 then None
    else if count > 99 then Some("99+")
    else
      NatToStringShort(count);
      Some(NatToString(count))
  }

  lemma {:induction false} NatToStringShort(n: nat)
    requires n <= 99
    ensures |NatToString(n)| <= 2
  {
    if n >= 10 {
      assert n / 10 < 10;
    }
  }

  /** The body of `POST /dm` that `handleCreateDM` sends. */
  datatype CreateDmRequest = CreateDmRequest(participantIds: seq<string>, isGroup: bool)

  /** `handleCreateDM`: asks for a one-to-one conversation with `userId`; on
      success the returned conversation is put first in the store and opened,
      on failure nothing changes. */
  method CreateDm(store: DmState, userId: string, reply: Option<ClientConversation>) returns (request: CreateDmRequest)
    modifies store
    ensures request == CreateDmRequest([userId], false)
    ensures reply.None? ==>
      store.conversations == old(store.conversations) && store.currentConversation == old(store.currentConversation) &&
      store.messages == old(store.messages)
    ensures reply.Some? ==>
      store.conversations == [reply.value] + old(store.conversations) && store.currentConversation == reply &&
      store.messages == old(store.messages)
  {
    request := CreateDmRequest([userId], false);
    if reply.Some? {
      store.AddConversation(reply.value);
      store.SetCurrentConversation(reply);
    }
  }

  /** A user in the dialog's search results. */
  datatype UserSummary = UserSummary(id: string, username: string, firstName: Option<string>, lastName: Option<string>)

  /** The dialog's local state. */
  class NewDmDialog {
    var users: seq<UserSummary>
    var loading: bool

    constructor ()
      ensures users == [] && !loading
    {
      users, loading := [], false;
    }

    /** `searchUsers`: a blank query clears the results without a request;
        otherwise the untrimmed query is sent and the results (or nothing,
        on failure) replace the list. Returns the query sent, if any. */
    method SearchUsers(query: string, reply: Option<seq<UserSummary>>) returns (sent: Option<string>)
      modifies this
      ensures (forall i :: 0 <= i < |query| ==> IsSpace(query[i])) <==> sent.None?
      ensures sent.None? ==> users == [] && loading == old(loading)
      ensures sent.Some? ==> sent.value == query && !loading && users == (if reply.Some? then reply.value else [])
    {
      TrimEmptyIffBlank(query);
      if Trim(query) == [] {
        users := [];
        return None;
      }
      loading := true;
      sent := Some(query);
      if reply.Some? {
        users := reply.value;
      } else {
        users := [];
      }
      loading := false;
    }
  }
}
