/** The reaction bar under a message: grouping by emoji, the badges, and what
    a click or the picker asks for (frontend/src/components/MessageReactions.tsx). */
module MessageReactions {
  import opened Common
  import opened Sequences

  datatype ReactionUser = ReactionUser(id: string, username: string)
  datatype ClientReaction = ClientReaction(id: string, emoji: string, user: ReactionUser)

  /** One badge: an emoji and its reactions. */
  datatype Group = Group(emoji: string, members: seq<ClientReaction>)

  /** What the component asks its parent to do. */
  datatype Action = AddReaction(emoji: string) | RemoveReaction(emoji: string)

  function EmojiIs(e: string): ClientReaction -> bool {
    (r: ClientReaction) => r.emoji == e
  }

  /** The reactions with emoji `e`, in their order. */
  function WithEmoji(rs: seq<ClientReaction>, e: string): (w: seq<ClientReaction>)
    ensures forall r :: r in w <==> r in rs && r.emoji == e
  {
    Filter(rs, EmojiIs(e))
  }

  /** One more reaction lands at the end of its emoji's list and nowhere else. */
  lemma WithEmojiAppend(rs: seq<ClientReaction>, x: ClientReaction, e: string)
    ensures WithEmoji(rs + [x], e) == WithEmoji(rs, e) + if x.emoji == e then [x] else []
  {
    FilterAppend(rs, x, EmojiIs(e));
  }

  predicate Distinct(es: seq<string>) {
    forall i, j :: 0 <= i < j < |es| ==> es[i] != es[j]
  }

  /** The emojis in order of first occurrence: the key order of the object
      the grouping builds. */
  function Emojis(rs: seq<ClientReaction>): seq<string> {
    if rs == [] then []
    else
      var es := Emojis(rs[..|rs| - 1]);
      if rs[|rs| - 1].emoji in es then es else es + [rs[|rs| - 1].emoji]
  }

  /** One more reaction adds its emoji at the end, unless it is already listed. */
  lemma EmojisAppend(rs: seq<ClientReaction>, x: ClientReaction)
    ensures Emojis(rs + [x]) == if x.emoji in Emojis(rs) then Emojis(rs) else Emojis(rs) + [x.emoji]
  {
    assert (rs + [x])[..|rs|] == rs;
  }

  /** An emoji is listed exactly when some reaction carries it. */
  lemma {:induction false} EmojisMembers(rs: seq<ClientReaction>, e: string)
    ensures e in Emojis(rs) <==> WithEmoji(rs, e) != []
    decreases |rs|
  {
    if rs != [] {
      var front, x := rs[..|rs| - 1], rs[|rs| - 1];
      assert rs == front + [x];
      EmojisAppend(front, x);
      WithEmojiAppend(front, x, e);
      EmojisMembers(front, e);
    }
  }

  /** No emoji is listed twice. */
  lemma {:induction false} EmojisDistinct(rs: seq<ClientReaction>)
    ensures Distinct(Emojis(rs))
    decreases |rs|
  {
    if rs != [] {
      EmojisDistinct(rs[..|rs| - 1]);
    }
  }

  /** The groups, in the order `Object.entries` lists them. */
  function Grouped(rs: seq<ClientReaction>): (gs: seq<Group>)
    ensures |gs| == |Emojis(rs)|
    ensures forall k :: 0 <= k < |gs| ==> gs[k] == Group(Emojis(rs)[k], WithEmoji(rs, Emojis(rs)[k]))
  {
    var es := Emojis(rs);
    seq(|es|, k requires 0 <= k < |es| => Group(es[k], WithEmoji(rs, es[k])))
  }

  /** The own property names of `Object.prototype`. The grouping reduces
      into `{}`, so for these keys `acc[emoji]` is already truthy (a function,
      or the prototype itself for `__proto__`) and no array is put there. */
  const ObjectPrototypeKeys: set<string> := {
    "constructor", "hasOwnProperty", "isPrototypeOf", "propertyIsEnumerable", "toString",
    "toLocaleString", "valueOf", "__proto__", "__defineGetter__", "__defineSetter__",
    "__lookupGetter__", "__lookupSetter__"}

  /** The `reduce` that pushes each reaction onto its emoji's array. It
      throws a `TypeError` (`None`: the bar does not render) at the first
      reaction whose emoji is a key `{}` inherits, since `push` is then not
      a function of what `acc[emoji]` holds. */
  method GroupReactions(reactions: seq<ClientReaction>) returns (groups: Option<seq<Group>>)
    ensures groups.None? <==> exists r :: r in reactions && r.emoji in ObjectPrototypeKeys
    ensures groups.Some? ==> groups.value == Grouped(reactions)
  {
    var acc: map<string, seq<ClientReaction>> := map[];
    var keys: seq<string> := [];
    for i := 0 to |reactions|
      invariant AccInv(acc, keys, reactions[..i])
      invariant forall j :: 0 <= j < i ==> reactions[j].emoji !in ObjectPrototypeKeys
    {
      var r := reactions[i];
      if r.emoji in ObjectPrototypeKeys {
        return None;
      }
      var acc0, keys0 := acc, keys;
      if r.emoji !in acc {
        acc := acc[r.emoji := []];
        keys := keys + [r.emoji];
      }
      acc := acc[r.emoji := acc[r.emoji] + [r]];
      AccStep(reactions, i, acc0, keys0, acc, keys);
    }
    assert reactions[..|reactions|] == reactions;
    groups := Some(seq(|keys|, k requires 0 <= k < |keys| => Group(keys[k], acc[keys[k]])));
  }

  /** The accumulator after a prefix of the reactions: its keys in insertion
      order, each holding that emoji's reactions of the prefix. */
  ghost predicate AccInv(acc: map<string, seq<ClientReaction>>, keys: seq<string>, prefix: seq<ClientReaction>) {
    keys == Emojis(prefix) &&
    (forall e :: e in acc <==> e in keys) &&
    (forall e :: e in acc ==> acc[e] == WithEmoji(prefix, e))
  }

  /** One step of the `reduce` keeps the accumulator in step with the prefix. */
  lemma AccStep(rs: seq<ClientReaction>, i: nat, acc: map<string, seq<ClientReaction>>, keys: seq<string>,
                acc2: map<string, seq<ClientReaction>>, keys2: seq<string>)
    requires i < |rs|
    requires AccInv(acc, keys, rs[..i])
    requires keys2 == if rs[i].emoji in acc then keys else keys + [rs[i].emoji]
    requires acc2 == acc[rs[i].emoji := (if rs[i].emoji in acc then acc[rs[i].emoji] else []) + [rs[i]]]
    ensures AccInv(acc2, keys2, rs[..i + 1])
  {
    var x, p := rs[i], rs[..i];
    assert rs[..i + 1] == p + [x];
    EmojisAppend(p, x);
    if x.emoji !in acc {
      EmojisMembers(p, x.emoji);
    }
    forall e | e in acc2
      ensures acc2[e] == WithEmoji(p + [x], e)
    {
      WithEmojiAppend(p, x, e);
    }
  }

  /** Grouping partitions the reactions: the emojis are distinct, every group
      holds exactly the reactions with its emoji, and every reaction has a group. */
  lemma GroupedPartition(rs: seq<ClientReaction>)
    ensures Distinct(seq(|Grouped(rs)|, k requires 0 <= k < |Grouped(rs)| => Grouped(rs)[k].emoji))
    ensures forall k, r :: 0 <= k < |Grouped(rs)| ==> (r in Grouped(rs)[k].members <==> r in rs && r.emoji == Grouped(rs)[k].emoji)
    ensures forall r :: r in rs ==> exists k :: 0 <= k < |Grouped(rs)| && Grouped(rs)[k].emoji == r.emoji
  {
    var gs, es := Grouped(rs), Emojis(rs);
    EmojisDistinct(rs);
    assert seq(|gs|, k requires 0 <= k < |gs| => gs[k].emoji) == es;
    forall r | r in rs
      ensures exists k :: 0 <= k < |gs| && gs[k].emoji == r.emoji
    {
      assert r in WithEmoji(rs, r.emoji);
      EmojisMembers(rs, r.emoji);
      var k :| 0 <= k < |es| && es[k] == r.emoji;
      assert gs[k].emoji == r.emoji;
    }
  }

  /** A group's badge: how many reactions it holds. */
  function Badge(g: Group): nat {
    |g.members|
  }

  /** The badges in order, summed. */
  function Total(gs: seq<Group>): nat {
    if gs == [] then 0 else Total(gs[..|gs| - 1]) + Badge(gs[|gs| - 1])
  }

  /** Two group lists whose badges agree except at `k0`, where the second is one more. */
  lemma {:induction false} TotalShift(gs: seq<Group>, hs: seq<Group>, k0: int)
    requires |gs| == |hs|
    requires forall k :: 0 <= k < |gs| && k != k0 ==> Badge(hs[k]) == Badge(gs[k])
    requires 0 <= k0 < |gs| ==> Badge(hs[k0]) == Badge(gs[k0]) + 1
    ensures Total(hs) == Total(gs) + if 0 <= k0 < |gs| then 1 else 0
    decreases |gs|
  {
    if gs != [] {
      var n := |gs| - 1;
      TotalShift(gs[..n], hs[..n], k0);
    }
  }

  /** The badge counts add up to the number of reactions. */
  lemma {:induction false} GroupedTotal(rs: seq<ClientReaction>)
    ensures Total(Grouped(rs)) == |rs|
    decreases |rs|
  {
    if rs != [] {
      var p, x := rs[..|rs| - 1], rs[|rs| - 1];
      assert rs == p + [x];
      GroupedTotal(p);
      TotalStep(p, x);
    }
  }

  /** One more reaction adds one to exactly one badge, or adds a badge of one. */
  lemma TotalStep(p: seq<ClientReaction>, x: ClientReaction)
    ensures Total(Grouped(p + [x])) == Total(Grouped(p)) + 1
  {
    if x.emoji in Emojis(p) {
      TotalStepKnown(p, x);
    } else {
      TotalStepNew(p, x);
    }
  }

  /** The badges that stay: one more reaction adds one to its emoji's badge only. */
  lemma BadgeStep(p: seq<ClientReaction>, x: ClientReaction, k: nat)
    requires k < |Emojis(p)|
    ensures k < |Emojis(p + [x])|
    ensures Badge(Grouped(p + [x])[k]) == Badge(Grouped(p)[k]) + if Emojis(p)[k] == x.emoji then 1 else 0
  {
    EmojisAppend(p, x);
    WithEmojiAppend(p, x, Emojis(p)[k]);
    assert Emojis(p + [x])[k] == Emojis(p)[k];
  }

  lemma TotalStepKnown(p: seq<ClientReaction>, x: ClientReaction)
    requires x.emoji in Emojis(p)
    ensures Total(Grouped(p + [x])) == Total(Grouped(p)) + 1
  {
    EmojisAppend(p, x);
    EmojisDistinct(p);
    var gs, hs, es := Grouped(p), Grouped(p + [x]), Emojis(p);
    var k0 :| 0 <= k0 < |es| && es[k0] == x.emoji;
    forall k | 0 <= k < |gs| && k != k0
      ensures Badge(hs[k]) == Badge(gs[k])
    {
      BadgeStep(p, x, k);
    }
    BadgeStep(p, x, k0);
    TotalShift(gs, hs, k0);
  }

  lemma TotalStepNew(p: seq<ClientReaction>, x: ClientReaction)
    requires x.emoji !in Emojis(p)
    ensures Total(Grouped(p + [x])) == Total(Grouped(p)) + 1
  {
    EmojisAppend(p, x);
    EmojisMembers(p, x.emoji);
    WithEmojiAppend(p, x, x.emoji);
    var gs, hs := Grouped(p), Grouped(p + [x]);
    var front := hs[..|gs|];
    forall k | 0 <= k < |gs|
      ensures Badge(front[k]) == Badge(gs[k])
    {
      BadgeStep(p, x, k);
    }
    TotalShift(gs, front, -1);
    assert hs[..|hs| - 1] == front;
    assert hs[|gs|].members == [x];
  }

  /** `p` is the position of the first reaction with emoji `e`. */
  predicate FirstAt(rs: seq<ClientReaction>, e: string, p: nat) {
    p < |rs| && rs[p].emoji == e && forall q :: 0 <= q < p ==> rs[q].emoji != e
  }

  /** The groups appear in the order in which their emojis first occur. */
  lemma {:induction false} EmojisInFirstOccurrenceOrder(rs: seq<ClientReaction>, i: nat, j: nat, p: nat, q: nat)
    requires i < j < |Emojis(rs)|
    requires FirstAt(rs, Emojis(rs)[i], p) && FirstAt(rs, Emojis(rs)[j], q)
    ensures p < q
    decreases |rs|
  {
    var front, x := rs[..|rs| - 1], rs[|rs| - 1];
    assert rs == front + [x];
    EmojisAppend(front, x);
    var es, fs := Emojis(rs), Emojis(front);
    assert i < |fs| && fs[i] == es[i];
    FirstInFront(front, x, es[i], p);
    if j < |fs| {
      assert fs[j] == es[j];
      FirstInFront(front, x, es[j], q);
      EmojisInFirstOccurrenceOrder(front, i, j, p, q);
    } else {
      FirstIsLast(front, x, es[j], q);
    }
  }

  /** An emoji already listed first occurs before the last reaction. */
  lemma FirstInFront(front: seq<ClientReaction>, x: ClientReaction, e: string, p: nat)
    requires e in Emojis(front) && FirstAt(front + [x], e, p)
    ensures FirstAt(front, e, p)
  {
    EmojisMembers(front, e);
    var r := WithEmoji(front, e)[0];
    assert r in WithEmoji(front, e);
    var pi :| 0 <= pi < |front| && front[pi] == r;
    assert (front + [x])[pi] == r;
    assert p <= pi;
    assert forall k :: 0 <= k <= p ==> (front + [x])[k] == front[k];
  }

  /** An emoji not yet listed first occurs at the last reaction. */
  lemma FirstIsLast(front: seq<ClientReaction>, x: ClientReaction, e: string, q: nat)
    requires e !in Emojis(front) && FirstAt(front + [x], e, q)
    ensures q == |front|
  {
    EmojisMembers(front, e);
  }

  /** The badge's tooltip: the reacting users' names, comma-separated. */
  function Title(g: Group): (t: string)
    ensures g.members == [] ==> t == ""
    ensures |g.members| == 1 ==> t == g.members[0].user.username
  {
    Join(seq(|g.members|, k requires 0 <= k < |g.members| => g.members[k].user.username), ", ")
  }

  /** `reactionList.some(r => r.user.id === uid)`. */
  function Reacted(rs: seq<ClientReaction>, uid: string): (b: bool)
    ensures b <==> exists r :: r in rs && r.user.id == uid
  {
    if rs == [] then false
    else
      assert forall r :: r in rs <==> r == rs[0] || r in rs[1..];
      rs[0].user.id == uid || Reacted(rs[1..], uid)
  }

  /** `hasUserReacted`: with nobody signed in, `user?.id` is `undefined` and matches no reaction. */
  function HasUserReacted(g: Group, user: Option<string>): (b: bool)
    ensures b <==> user.Some? && exists r :: r in g.members && r.user.id == user.value
  {
    user.Some? && Reacted(g.members, user.value)
  }

  /** `groupedReactions[emoji]`. */
  function Lookup(gs: seq<Group>, e: string): (r: Option<seq<ClientReaction>>)
    ensures r.Some? <==> exists k :: 0 <= k < |gs| && gs[k].emoji == e
    ensures r.Some? ==> exists k :: 0 <= k < |gs| && gs[k].emoji == e && gs[k].members == r.value
  {
    if gs == [] then None
    else if gs[0].emoji == e then Some(gs[0].members)
    else
      var r := Lookup(gs[1..], e);
      assert forall k :: 0 <= k < |gs[1..]| ==> gs[1..][k] == gs[k + 1];
      assert (exists k :: 0 <= k < |gs| && gs[k].emoji == e) ==> exists k :: 0 <= k < |gs[1..]| && gs[1..][k].emoji == e;
      r
  }

  /** `handleReactionClick`: remove when the user already has this emoji on
      the message, add otherwise. */
  function ClickAction(reactions: seq<ClientReaction>, emoji: string, user: Option<string>): (a: Action)
    ensures a == RemoveReaction(emoji) <==>
      user.Some? && exists r :: r in reactions && r.emoji == emoji && r.user.id == user.value
    ensures a == AddReaction(emoji) || a == RemoveReaction(emoji)
  {
    var found := Lookup(Grouped(reactions), emoji);
    LookupGrouped(reactions, emoji);
    if found.Some? && user.Some? && Reacted(found.value, user.value) then RemoveReaction(emoji) else AddReaction(emoji)
  }

  /** Looking an emoji up among the groups finds exactly its reactions, and
      nothing for an emoji no reaction carries. */
  lemma LookupGrouped(rs: seq<ClientReaction>, e: string)
    ensures Lookup(Grouped(rs), e) == if WithEmoji(rs, e) != [] then Some(WithEmoji(rs, e)) else None
  {
    var gs, es := Grouped(rs), Emojis(rs);
    EmojisMembers(rs, e);
    EmojisDistinct(rs);
    if e in es {
      var k :| 0 <= k < |es| && es[k] == e;
      assert gs[k].emoji == e;
      var k' :| 0 <= k' < |gs| && gs[k'].emoji == e && gs[k'].members == Lookup(gs, e).value;
      assert es[k'] == e;
    } else {
      assert forall k :: 0 <= k < |gs| ==> gs[k].emoji == es[k];
    }
  }

  /** The emoji picker: `onSelect` is `onAddReaction`. */
  function PickerAction(emoji: string): (a: Action)
    ensures a.AddReaction? && a.emoji == emoji
  {
    AddReaction(emoji)
  }

  /** The picker asks to add an emoji the user already reacted with, where a
      click on that emoji's badge would ask to remove it. */
  lemma PickerIgnoresExisting(reactions: seq<ClientReaction>, emoji: string, uid: string, r: ClientReaction)
    requires r in reactions && r.emoji == emoji && r.user.id == uid
    ensures ClickAction(reactions, emoji, Some(uid)) == RemoveReaction(emoji)
    ensures PickerAction(emoji) != ClickAction(reactions, emoji, Some(uid))
  {
  }
}
