/** The workspace selector and the "create channel" form of the web client's
    sidebar (frontend/src/components/Sidebar.tsx). */
module Sidebar {
  import opened Common
  import opened Sequences
  import opened ChannelStore
  import opened WorkspaceStore

  /** The end of the run of white space that starts at `i`. */
  function RunEnd(s: string, i: nat): (j: nat)
    requires i <= |s|
    ensures i <= j <= |s|
    ensures forall k :: i <= k < j ==> IsSpace(s[k])
    ensures j == |s| || !IsSpace(s[j])
    decreases |s| - i
  {
    if i < |s| && IsSpace(s[i]) then RunEnd(s, i + 1) else i
  }

  /** `name.toLowerCase().replace(/\s+/g, '-')`. */
  function Slug(s: string): (r: string)
    ensures |r| <= |s|
    decreases |s|
  {
    if s == [] then []
    else if IsSpace(s[0]) then "-" + Slug(s[RunEnd(s, 0)..])
    else [LowerChar(s[0])] + Slug(s[1..])
  }

  /** A slug holds neither white space nor upper-case letters. */
  lemma {:induction false} SlugChars(s: string)
    ensures forall i :: 0 <= i < |Slug(s)| ==> !IsSpace(Slug(s)[i]) && !('A' <= Slug(s)[i] <= 'Z')
    decreases |s|
  {
    if s != [] {
      if IsSpace(s[0]) {
        SlugChars(s[RunEnd(s, 0)..]);
      } else {
        SlugChars(s[1..]);
      }
    }
  }

  /** Without white space the slug is just the lower-cased name. */
  lemma {:induction false} SlugOfWord(s: string)
    requires forall i :: 0 <= i < |s| ==> !IsSpace(s[i])
    ensures Slug(s) == ToLower(s)
  {
    if s != [] {
      SlugOfWord(s[1..]);
    }
  }

  /** Slugging a slug changes nothing. */
  lemma SlugIdempotent(s: string)
    ensures Slug(Slug(s)) == Slug(s)
  {
    SlugChars(s);
    SlugOfWord(Slug(s));
  }

  lemma {:induction false} RunEndConcat(a: string, b: string, i: nat)
    requires i <= |a| && RunEnd(a, i) < |a|
    ensures RunEnd(a + b, i) == RunEnd(a, i)
    decreases |a| - i
  {
    if IsSpace(a[i]) {
      RunEndConcat(a, b, i + 1);
    }
  }

  lemma {:induction false} RunEndSpaces(w: string, y: string, i: nat)
    requires i <= |w| && forall k :: 0 <= k < |w| ==> IsSpace(w[k])
    requires y == [] || !IsSpace(y[0])
    ensures RunEnd(w + y, i) == |w|
    decreases |w| - i
  {
    if i < |w| {
      RunEndSpaces(w, y, i + 1);
    }
  }

  /** Slugging distributes over a split that does not cut a run of white space. */
  lemma {:induction false} SlugConcat(x: string, t: string)
    requires x == [] || !IsSpace(x[|x| - 1])
    ensures Slug(x + t) == Slug(x) + Slug(t)
    decreases |x|
  {
    if x == [] {
      assert x + t == t;
    } else if !IsSpace(x[0]) {
      assert x[1..] == [] || !IsSpace(x[1..][|x[1..]| - 1]);
      SlugConcat(x[1..], t);
      SlugConcatWord(x, t);
    } else {
      var r := RunEnd(x, 0);
      assert r < |x|;
      assert !IsSpace(x[r..][|x[r..]| - 1]);
      SlugConcat(x[r..], t);
      SlugConcatSpace(x, t);
    }
  }

  lemma SlugConcatWord(x: string, t: string)
    requires x != [] && !IsSpace(x[0])
    requires Slug(x[1..] + t) == Slug(x[1..]) + Slug(t)
    ensures Slug(x + t) == Slug(x) + Slug(t)
  {
    SlugWordStep(x, t);
    ConcatAssoc([LowerChar(x[0])], Slug(x[1..]), Slug(t));
  }

  lemma SlugConcatSpace(x: string, t: string)
    requires x != [] && IsSpace(x[0]) && RunEnd(x, 0) < |x|
    requires Slug(x[RunEnd(x, 0)..] + t) == Slug(x[RunEnd(x, 0)..]) + Slug(t)
    ensures Slug(x + t) == Slug(x) + Slug(t)
  {
    SlugSpaceStep(x, t);
    ConcatAssoc("-", Slug(x[RunEnd(x, 0)..]), Slug(t));
  }

  /** Each maximal run of white space becomes exactly one '-': a run `w`
      between two pieces without white space at its edges. */
  lemma SlugRun(x: string, w: string, y: string)
    requires |w| > 0 && forall k :: 0 <= k < |w| ==> IsSpace(w[k])
    requires x == [] || !IsSpace(x[|x| - 1])
    requires y == [] || !IsSpace(y[0])
    ensures Slug(x + w + y) == Slug(x) + "-" + Slug(y)
  {
    assert x + w + y == x + (w + y);
    SlugConcat(x, w + y);
    SlugOfRun(w, y);
    ConcatAssoc(Slug(x), "-", Slug(y));
  }

  lemma SlugOfRun(w: string, y: string)
    requires |w| > 0 && forall k :: 0 <= k < |w| ==> IsSpace(w[k])
    requires y == [] || !IsSpace(y[0])
    ensures Slug(w + y) == "-" + Slug(y)
  {
    RunEndSpaces(w, y, 0);
    assert (w + y)[|w|..] == y;
  }

  lemma SlugWordStep(x: string, t: string)
    requires x != [] && !IsSpace(x[0])
    ensures Slug(x + t) == [LowerChar(x[0])] + Slug(x[1..] + t)
    ensures Slug(x) == [LowerChar(x[0])] + Slug(x[1..])
  {
    assert (x + t)[1..] == x[1..] + t;
  }

  lemma SlugSpaceStep(x: string, t: string)
    requires x != [] && IsSpace(x[0]) && RunEnd(x, 0) < |x|
    ensures Slug(x + t) == "-" + Slug(x[RunEnd(x, 0)..] + t)
    ensures Slug(x) == "-" + Slug(x[RunEnd(x, 0)..])
  {
    RunEndConcat(x, t, 0);
    assert (x + t)[RunEnd(x, 0)..] == x[RunEnd(x, 0)..] + t;
  }

  /** The body of `POST /channels/workspace/:id`. */
  datatype ChannelRequest = ChannelRequest(workspaceId: string, name: string, description: string, isPrivate: bool)

  /** The sidebar's form state and the two stores it reads and writes. */
  class SidebarState {
    var newChannelName: string
    var showCreateChannel: bool
    const workspaces: WorkspaceState
    const channels: ChannelState

    constructor (ws: WorkspaceState, cs: ChannelState)
      ensures newChannelName == "" && !showCreateChannel && workspaces == ws && channels == cs
    {
      newChannelName, showCreateChannel := "", false;
      workspaces, channels := ws, cs;
    }

    /** `handleCreateChannel`: nothing is sent without a current workspace or
        with a blank name; otherwise the slugged name is sent, and on success
        the returned channel is appended and the form is cleared and closed.
        `reply` is the server's answer, `None` for a failed request. */
    method CreateChannel(reply: Option<ClientChannel>) returns (request: Option<ChannelRequest>)
      modifies this, channels
      ensures old(workspaces.currentWorkspace).None? || (forall i :: 0 <= i < |old(newChannelName)| ==> IsSpace(old(newChannelName)[i])) ==>
        request.None? && newChannelName == old(newChannelName) && showCreateChannel == old(showCreateChannel) &&
        channels.channels == old(channels.channels) && channels.currentChannel == old(channels.currentChannel)
      ensures request.Some? ==>
        old(workspaces.currentWorkspace).Some? &&
        request.value == ChannelRequest(old(workspaces.currentWorkspace).value.id, Slug(old(newChannelName)), "", false) &&
        channels.currentChannel == old(channels.currentChannel) &&
        if reply.Some? then
          channels.channels == old(channels.channels) + [reply.value] && newChannelName == "" && !showCreateChannel
        else
          channels.channels == old(channels.channels) && newChannelName == old(newChannelName) &&
          showCreateChannel == old(showCreateChannel)
      ensures request.None? <==>
        old(workspaces.currentWorkspace).None? || forall i :: 0 <= i < |old(newChannelName)| ==> IsSpace(old(newChannelName)[i])
    {
      TrimEmptyIffBlank(newChannelName);
      if workspaces.currentWorkspace.None? || Trim(newChannelName) == [] {
        return None;
      }
      request := Some(ChannelRequest(workspaces.currentWorkspace.value.id, Slug(newChannelName), "", false));
      if reply.Some? {
        channels.SetChannels(channels.channels + [reply.value]);
        newChannelName := "";
        showCreateChannel := false;
      }
    }

    /** The workspace selector's `onChange`: the fetched workspace with the
        chosen id, or none when the list is not loaded or lacks that id. */
    method SelectWorkspace(fetched: Option<seq<ClientWorkspace>>, value: string)
      modifies workspaces
      ensures workspaces.workspaces == old(workspaces.workspaces)
      ensures workspaces.currentWorkspace.Some? <==>
        fetched.Some? && exists w :: w in fetched.value && w.id == value
      ensures workspaces.currentWorkspace.Some? ==>
        workspaces.currentWorkspace.value in fetched.value && workspaces.currentWorkspace.value.id == value
    {
      var found := if fetched.Some? then Find(fetched.value, (w: ClientWorkspace) => w.id, value) else None;
      workspaces.SetCurrentWorkspace(found);
    }
  }
}
