/** The `@username` tokenizer that splits a message into plain text and
    mentions (frontend/src/utils/mentions.ts). */
module Mentions {
  import opened Common
  import opened Sequences

  /** A piece of the message: plain text, or a mention whose `text` is the
      matched `@username`. Both carry the characters they cover in `text`. */
  datatype Part = Plain(text: string) | Mention(username: string, text: string)

  /** An '@' at `i` that the pattern `@(\w+)` can match. */
  predicate MentionAt(s: string, i: int) {
    0 <= i && i + 1 < |s| && s[i] == '@' && IsWordChar(s[i + 1])
  }

  /** Where `exec` finds its next match when it starts looking at `from`. */
  function NextMention(s: string, from: nat): (r: Option<nat>)
    requires from <= |s|
    ensures r.Some? ==> from <= r.value && MentionAt(s, r.value) && forall j :: from <= j < r.value ==> !MentionAt(s, j)
    ensures r.None? ==> forall j :: from <= j ==> !MentionAt(s, j)
    decreases |s| - from
  {
    if from == |s| then None
    else if MentionAt(s, from) then Some(from)
    else NextMention(s, from + 1)
  }

  /** The end of the greedy `\w+` run that starts at `j`. */
  function WordEnd(s: string, j: nat): (e: nat)
    requires j <= |s|
    ensures j <= e <= |s|
    ensures forall k :: j <= k < e ==> IsWordChar(s[k])
    ensures e == |s| || !IsWordChar(s[e])
    decreases |s| - j
  {
    if j < |s| && IsWordChar(s[j]) then WordEnd(s, j + 1) else j
  }

  /** The parts produced from `from` on: the text before each match, the
      match, and the text after the last one. */
  function Scan(s: string, from: nat): seq<Part>
    requires from <= |s|
    decreases |s| - from
  {
    match NextMention(s, from)
    case None => if from < |s| then [Plain(s[from..])] else []
    case Some(i) =>
      var e := WordEnd(s, i + 1);
      (if i > from then [Plain(s[from..i])] else []) + [Mention(s[i + 1..e], s[i..e])] + Scan(s, e)
  }

  /** What `parseMentions` returns: the parts, or `[content]` when there are none. */
  function Parse(s: string): seq<Part> {
    var parts := Scan(s, 0);
    if |parts| > 0 then parts else [Plain(s)]
  }

  /** `parseMentions`: the `exec` loop with its moving `lastIndex`. */
  method ParseMentions(content: string) returns (parts: seq<Part>)
    ensures parts == Parse(content)
  {
    parts := [];
    var lastIndex := 0;
    var match_ := NextMention(content, lastIndex);
    while match_.Some?
      invariant lastIndex <= |content|
      invariant match_ == NextMention(content, lastIndex)
      invariant parts + Scan(content, lastIndex) == Scan(content, 0)
      decreases |content| - lastIndex
    {
      var i := match_.value;
      var e := WordEnd(content, i + 1);
      BlockSplit(content, lastIndex);
      ghost var before, block := parts, Block(content, lastIndex);
      if i > lastIndex {
        parts := parts + [Plain(content[lastIndex..i])];
      }
      parts := parts + [Mention(content[i + 1..e], content[i..e])];
      assert parts == before + block;
      ConcatAssoc(before, block, Scan(content, e));
      lastIndex := e;
      match_ := NextMention(content, lastIndex);
    }
    if lastIndex < |content| {
      parts := parts + [Plain(content[lastIndex..])];
    }
    if |parts| == 0 {
      parts := [Plain(content)];
    }
  }

  /** The characters the parts cover, in order. */
  function Flatten(parts: seq<Part>): string {
    if parts == [] then "" else parts[0].text + Flatten(parts[1..])
  }

  lemma {:induction false} FlattenAppend(a: seq<Part>, b: seq<Part>)
    ensures Flatten(a + b) == Flatten(a) + Flatten(b)
    decreases |a|
  {
    if a == [] {
      assert a + b == b;
    } else {
      assert (a + b)[1..] == a[1..] + b;
      FlattenAppend(a[1..], b);
    }
  }

  lemma {:induction false} ScanFlatten(s: string, from: nat)
    requires from <= |s|
    ensures Flatten(Scan(s, from)) == s[from..]
    decreases |s| - from
  {
    if NextMention(s, from).Some? {
      BlockSplit(s, from);
      var e := BlockEnd(s, from);
      ScanFlatten(s, e);
      FlattenAppend(Block(s, from), Scan(s, e));
      assert s[from..] == s[from..e] + s[e..];
    }
  }

  /** Concatenating the parts reproduces the input exactly. */
  lemma ParseReproduces(s: string)
    ensures Flatten(Parse(s)) == s
  {
    ScanFlatten(s, 0);
    assert s[0..] == s;
  }

  /** A well-formed mention: '@' followed by a non-empty run of word characters. */
  predicate WellFormed(p: Part) {
    p.Mention? ==> p.text == "@" + p.username && |p.username| >= 1 && forall k :: 0 <= k < |p.username| ==> IsWordChar(p.username[k])
  }

  /** No empty text part and no two text parts in a row. */
  predicate Tight(parts: seq<Part>) {
    (forall k :: 0 <= k < |parts| && parts[k].Plain? ==> parts[k].text != "") &&
    (forall k :: 0 <= k < |parts| - 1 && parts[k].Plain? ==> parts[k + 1].Mention?)
  }

  lemma {:induction false} ScanShape(s: string, from: nat)
    requires from <= |s|
    ensures forall p :: p in Scan(s, from) ==> WellFormed(p)
    ensures Tight(Scan(s, from))
    decreases |s| - from
  {
    if NextMention(s, from).Some? {
      BlockSplit(s, from);
      var e := BlockEnd(s, from);
      ScanShape(s, e);
      BlockShape(s, from);
      TightConcat(Block(s, from), Scan(s, e));
    }
  }

  /** A block is an optional non-empty text part and then a well-formed mention. */
  lemma BlockShape(s: string, from: nat)
    requires from <= |s| && NextMention(s, from).Some?
    ensures forall p :: p in Block(s, from) ==> WellFormed(p)
    ensures Tight(Block(s, from)) && Block(s, from)[|Block(s, from)| - 1].Mention?
  {
    var i := NextMention(s, from).value;
    var e := WordEnd(s, i + 1);
    assert s[i..e] == "@" + s[i + 1..e];
  }

  /** Gluing two tight lists is tight when the first ends in a mention. */
  lemma TightConcat(a: seq<Part>, b: seq<Part>)
    requires Tight(a) && Tight(b) && (a != [] ==> a[|a| - 1].Mention?)
    ensures Tight(a + b)
  {
    var c := a + b;
    forall k | 0 <= k < |c| - 1 && c[k].Plain?
      ensures c[k + 1].Mention?
    {
      if k < |a| - 1 {
        assert c[k] == a[k] && c[k + 1] == a[k + 1];
      } else {
        assert k >= |a|;
        assert c[k] == b[k - |a|] && c[k + 1] == b[k + 1 - |a|];
      }
    }
  }

  /** Every mention is '@' plus a non-empty word; for a non-empty input no text
      part is empty and no two text parts are adjacent. */
  lemma ParseShape(s: string)
    ensures forall p :: p in Parse(s) ==> WellFormed(p)
    ensures s != "" ==> Tight(Parse(s))
  {
    ScanShape(s, 0);
  }

  /** The empty message gives `[""]`; a message with no mention gives itself. */
  lemma ParseWithoutMentions(s: string)
    requires forall j :: 0 <= j < |s| ==> !MentionAt(s, j)
    ensures Parse(s) == [Plain(s)]
  {
    assert NextMention(s, 0).None?;
    if s != "" {
      assert s[0..] == s;
    }
  }

  /** Where part `k` starts in the input, counting from `base`. */
  function Offset(parts: seq<Part>, base: nat, k: nat): nat
    requires k <= |parts|
  {
    base + |Flatten(parts[..k])|
  }

  /** The match sits where the input has it, and its word cannot be extended. */
  predicate Placed(s: string, p: nat, m: Part) {
    MentionAt(s, p) && p + |m.text| <= |s| && s[p..p + |m.text|] == m.text &&
    (p + |m.text| == |s| || !IsWordChar(s[p + |m.text|]))
  }

  /** Offsets within `rest` become offsets within `block + rest`. */
  lemma ShiftOffset(block: seq<Part>, rest: seq<Part>, base: nat, k: nat)
    requires k <= |rest|
    ensures Offset(block + rest, base, |block| + k) == Offset(rest, base + |Flatten(block)|, k)
  {
    var pre := (block + rest)[..|block| + k];
    assert pre == block + rest[..k];
    FlattenAppend(block, rest[..k]);
    assert |Flatten(pre)| == |Flatten(block)| + |Flatten(rest[..k])|;
  }

  /** The text before the next match, then the match itself. */
  function Block(s: string, from: nat): seq<Part>
    requires from <= |s| && NextMention(s, from).Some?
  {
    var i := NextMention(s, from).value;
    var e := WordEnd(s, i + 1);
    (if i > from then [Plain(s[from..i])] else []) + [Mention(s[i + 1..e], s[i..e])]
  }

  /** Where the next match ends. */
  function BlockEnd(s: string, from: nat): (e: nat)
    requires from <= |s| && NextMention(s, from).Some?
    ensures NextMention(s, from).value + 1 < e <= |s|
  {
    WordEnd(s, NextMention(s, from).value + 1)
  }

  /** One step of the scan: a block covering the input up to the end of the
      match, followed by the scan from there. */
  lemma BlockSplit(s: string, from: nat)
    requires from <= |s| && NextMention(s, from).Some?
    ensures Scan(s, from) == Block(s, from) + Scan(s, BlockEnd(s, from))
    ensures Flatten(Block(s, from)) == s[from..BlockEnd(s, from)]
    ensures |Flatten(Block(s, from))| == BlockEnd(s, from) - from
  {
    var i := NextMention(s, from).value;
    var e := WordEnd(s, i + 1);
    var m := Mention(s[i + 1..e], s[i..e]);
    var pre: seq<Part> := if i > from then [Plain(s[from..i])] else [];
    assert Block(s, from) == pre + [m];
    assert Flatten([m]) == s[i..e];
    assert Flatten(pre) == s[from..i];
    FlattenAppend(pre, [m]);
    assert s[from..e] == s[from..i] + s[i..e];
  }

  lemma {:induction false} ScanPlaced(s: string, from: nat, k: nat)
    requires from <= |s|
    requires k < |Scan(s, from)| && Scan(s, from)[k].Mention?
    ensures Placed(s, Offset(Scan(s, from), from, k), Scan(s, from)[k])
    decreases |s| - from
  {
    BlockSplit(s, from);
    var e := BlockEnd(s, from);
    var block: seq<Part>, rest: seq<Part> := Block(s, from), Scan(s, e);
    if k < |block| {
      PlacedInBlock(s, from, rest, k);
    } else {
      ScanPlaced(s, e, k - |block|);
      PlacedInRest(s, from, e, block, rest, k - |block|);
    }
  }

  lemma PlacedInRest(s: string, from: nat, e: nat, block: seq<Part>, rest: seq<Part>, k: nat)
    requires e == from + |Flatten(block)|
    requires k < |rest| && rest[k].Mention? && Placed(s, Offset(rest, e, k), rest[k])
    ensures Placed(s, Offset(block + rest, from, |block| + k), (block + rest)[|block| + k])
  {
    ShiftOffset(block, rest, from, k);
    assert (block + rest)[|block| + k] == rest[k];
  }

  lemma PlacedInBlock(s: string, from: nat, rest: seq<Part>, k: nat)
    requires from <= |s| && NextMention(s, from).Some?
    requires k < |Block(s, from)| && Block(s, from)[k].Mention?
    ensures Placed(s, Offset(Block(s, from) + rest, from, k), (Block(s, from) + rest)[k])
  {
    var i := NextMention(s, from).value;
    var e := WordEnd(s, i + 1);
    var block := Block(s, from);
    var pre: seq<Part> := if i > from then [Plain(s[from..i])] else [];
    assert block == pre + [Mention(s[i + 1..e], s[i..e])];
    assert k == |pre|;
    assert (block + rest)[..k] == pre;
    assert Flatten(pre) == s[from..i];
    assert s[i..e] == "@" + s[i + 1..e];
  }

  /** Each mention lies at an '@' of the input followed by its word, and the
      character after it is not a word character (or the input ends). */
  lemma ParsePlaced(s: string)
    ensures forall k :: 0 <= k < |Parse(s)| && Parse(s)[k].Mention? ==> Placed(s, Offset(Parse(s), 0, k), Parse(s)[k])
  {
    forall k | 0 <= k < |Parse(s)| && Parse(s)[k].Mention?
      ensures Placed(s, Offset(Parse(s), 0, k), Parse(s)[k])
    {
      ScanPlaced(s, 0, k);
    }
  }

  /** Part `k` is a text part covering position `i`. */
  predicate PlainAt(parts: seq<Part>, base: nat, i: nat, k: nat) {
    k < |parts| && parts[k].Plain? && Offset(parts, base, k) <= i < Offset(parts, base, k) + |parts[k].text|
  }

  lemma {:induction false} ScanKeepsStrayAt(s: string, from: nat, i: nat) returns (k: nat)
    requires from <= i < |s| && s[i] == '@' && !MentionAt(s, i)
    ensures PlainAt(Scan(s, from), from, i, k)
    decreases |s| - from
  {
    if NextMention(s, from).None? {
      k := StrayInTail(s, from, i);
    } else if i < NextMention(s, from).value {
      k := StrayBeforeMatch(s, from, i, Scan(s, BlockEnd(s, from)));
      BlockSplit(s, from);
    } else {
      StrayAfterMatch(s, from, i);
      var e := BlockEnd(s, from);
      BlockSplit(s, from);
      var k' := ScanKeepsStrayAt(s, e, i);
      k := StrayInRest(Block(s, from), Scan(s, e), from, e, i, k');
    }
  }

  lemma StrayInTail(s: string, from: nat, i: nat) returns (k: nat)
    requires from <= i < |s| && NextMention(s, from).None?
    ensures PlainAt(Scan(s, from), from, i, k)
  {
    var parts := Scan(s, from);
    assert parts == [Plain(s[from..])];
    assert parts[..0] == [];
    assert Offset(parts, from, 0) == from;
    k := 0;
  }

  lemma StrayBeforeMatch(s: string, from: nat, i: nat, rest: seq<Part>) returns (k: nat)
    requires from <= i < |s| && NextMention(s, from).Some? && i < NextMention(s, from).value
    ensures PlainAt(Block(s, from) + rest, from, i, k)
  {
    var parts := Block(s, from) + rest;
    assert parts[..0] == [];
    assert Offset(parts, from, 0) == from;
    assert parts[0] == Plain(s[from..NextMention(s, from).value]);
    k := 0;
  }

  /** An '@' that cannot start a match cannot lie inside the next match. */
  lemma StrayAfterMatch(s: string, from: nat, i: nat)
    requires from <= i < |s| && s[i] == '@' && !MentionAt(s, i)
    requires NextMention(s, from).Some? && NextMention(s, from).value <= i
    ensures BlockEnd(s, from) <= i
  {
    var j := NextMention(s, from).value;
    assert i != j;
    assert !IsWordChar(s[i]);
  }

  lemma StrayInRest(block: seq<Part>, rest: seq<Part>, from: nat, e: nat, i: nat, k: nat) returns (n: nat)
    requires e == from + |Flatten(block)|
    requires PlainAt(rest, e, i, k)
    ensures PlainAt(block + rest, from, i, n)
  {
    ShiftOffset(block, rest, from, k);
    n := |block| + k;
    assert (block + rest)[n] == rest[k];
  }

  /** An '@' not followed by a word character stays inside a text part. */
  lemma StrayAtStaysText(s: string, i: nat)
    requires i < |s| && s[i] == '@' && !MentionAt(s, i)
    ensures exists k :: PlainAt(Parse(s), 0, i, k)
  {
    var k := ScanKeepsStrayAt(s, 0, i);
    assert PlainAt(Parse(s), 0, i, k);
  }

  /** A mention may follow a word character, as inside an e-mail address. */
  lemma MentionAfterWordChar()
    ensures Parse("a@b") == [Plain("a"), Mention("b", "@b")]
  {
    var s := "a@b";
    assert !MentionAt(s, 0) && MentionAt(s, 1);
    assert NextMention(s, 0) == Some(1);
    assert WordEnd(s, 2) == 3;
    assert NextMention(s, 3) == None;
    assert Scan(s, 3) == [];
    assert s[0..1] == "a" && s[2..3] == "b" && s[1..3] == "@b";
  }
}
