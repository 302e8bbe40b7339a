/**
The bot's message packer: text blocks are packed, in order, into as few messages as fit a length
limit. A block over the limit is cut and marked; a message is only ever split between blocks.
*/
module ChunkBlocks {

  const MARKER := "\n...[truncated]"

  function Truncate(block: string, limit: nat): string {
    if |block| > limit then block[..limit] + MARKER else block
  }

  ghost function TruncateAll(blocks: seq<string>, limit: nat): (r: seq<string>)
    ensures |r| == |blocks|
    ensures forall i :: 0 <= i < |r| ==> r[i] == Truncate(blocks[i], limit)
  {
    seq(|blocks|, i requires 0 <= i < |blocks| => Truncate(blocks[i], limit))
  }

  // The blocks of one group, joined by newlines.
  ghost function Join(group: seq<string>): string {
    if group == [] then ""
    else if |group| == 1 then group[0]
    else Join(group[..|group| - 1]) + "\n" + group[|group| - 1]
  }

  ghost function JoinAll(groups: seq<seq<string>>): (r: seq<string>)
    ensures |r| == |groups|
    ensures forall i :: 0 <= i < |r| ==> r[i] == Join(groups[i])
  {
    seq(|groups|, i requires 0 <= i < |groups| => Join(groups[i]))
  }

  ghost function Flatten(groups: seq<seq<string>>): seq<string> {
    if groups == [] then [] else Flatten(groups[..|groups| - 1]) + groups[|groups| - 1]
  }

  // A group that may be sent as one message: a lone block, or several that fit together.
  ghost predicate Sendable(group: seq<string>, limit: nat) {
    |group| == 1 || (|group| > 1 && |Join(group)| <= limit)
  }

  // An in-order split of `blocks` into sendable groups.
  ghost predicate IsSplit(groups: seq<seq<string>>, blocks: seq<string>, limit: nat) {
    Flatten(groups) == blocks && forall g :: g in groups ==> Sendable(g, limit)
  }

  // One group more than was closed, unless nothing has been packed yet.
  ghost function Groups(closed: seq<seq<string>>, current: seq<string>): seq<seq<string>> {
    if current == [] then closed else closed + [current]
  }

  ghost function WithoutEmpty(blocks: seq<string>): seq<string> {
    if blocks == [] then []
    else
      var rest := WithoutEmpty(blocks[..|blocks| - 1]);
      if blocks[|blocks| - 1] == "" then rest else rest + [blocks[|blocks| - 1]]
  }

  // What the packer has done so far: groups already sent, the group being filled, blocks not dropped.
  datatype Packing = Packing(closed: seq<seq<string>>, group: seq<string>, kept: seq<string>)

  // The messages stand for an in-order split of the kept blocks, and no such split has fewer groups.
  // An empty block that would start a message is not kept; every other block is, cut if need be.
  ghost predicate Packs(messages: seq<string>, groups: seq<seq<string>>, kept: seq<string>, blocks: seq<string>, limit: nat) {
    && messages == JoinAll(groups)
    && IsSplit(groups, kept, limit)
    && (forall alternative :: IsSplit(alternative, kept, limit) ==> |messages| <= |alternative|)
    && WithoutEmpty(kept) == WithoutEmpty(TruncateAll(blocks, limit))
    && ("" !in blocks ==> kept == TruncateAll(blocks, limit))
  }

  // A message within the limit, or a lone block cut to the limit and marked.
  predicate Fits(message: string, blocks: seq<string>, limit: nat) {
    |message| <= limit || exists b :: b in blocks && |b| > limit && message == b[..limit] + MARKER
  }

  // The packing loop.
  method Chunk(blocks: seq<string>, limit: nat := 3900) returns (messages: seq<string>)
    ensures exists groups, kept :: Packs(messages, groups, kept, blocks, limit)
    ensures "" !in blocks ==> Join(messages) == Join(TruncateAll(blocks, limit))
    ensures "" !in blocks ==>
      forall alternative :: IsSplit(alternative, TruncateAll(blocks, limit), limit) ==> |messages| <= |alternative|
    ensures forall i :: 0 <= i < |messages| ==> Fits(messages[i], blocks, limit)
  {
    hide *;
    messages := [];
    var current := "";
    ghost var sent := TruncateAll(blocks, limit);
    ghost var p := Packing([], [], []);
    assert Consistent(p, [], "", [], limit) by { PackStart(limit); }
    for i := 0 to |blocks|
      invariant Consistent(p, messages, current, sent[..i], limit)
    {
      var block := blocks[i];
      if |block| > limit {
        block := block[..limit] + MARKER;
      }
      TruncateIs(blocks[i], block, limit);
      assert sent[..i + 1] == sent[..i] + [block];
      p := PackStep(p, messages, current, sent[..i], block, limit);
      if current != "" && |current| + 1 + |block| > limit {
        messages := messages + [current];
        current := block;
      } else {
        current := if current != "" then current + "\n" + block else block;
      }
    }
    assert sent[..|blocks|] == sent;
    PackDone(p, messages, current, sent, limit);
    CutBlocksStay(blocks, limit);
    if current != "" {
      messages := messages + [current];
    }
    PackedMessages(messages, Groups(p.closed, p.group), p.kept, blocks, limit);
  }

  // What a split of this kind means for the messages themselves.
  lemma PackedMessages(messages: seq<string>, groups: seq<seq<string>>, kept: seq<string>, blocks: seq<string>, limit: nat)
    requires messages == JoinAll(groups) && IsSplit(groups, kept, limit)
    requires forall alternative :: IsSplit(alternative, kept, limit) ==> |groups| <= |alternative|
    requires WithoutEmpty(kept) == WithoutEmpty(TruncateAll(blocks, limit))
    requires "" !in blocks ==> kept == TruncateAll(blocks, limit)
    ensures Packs(messages, groups, kept, blocks, limit)
    ensures "" !in blocks ==> Join(messages) == Join(TruncateAll(blocks, limit))
    ensures "" !in blocks ==>
      forall alternative :: IsSplit(alternative, TruncateAll(blocks, limit), limit) ==> |messages| <= |alternative|
    ensures forall i :: 0 <= i < |messages| ==> Fits(messages[i], blocks, limit)
  {
    hide IsSplit, Join, WithoutEmpty, Truncate, Fits;
    MessagesJoinToBlocks(groups, kept, limit);
    forall i | 0 <= i < |messages|
      ensures Fits(messages[i], blocks, limit)
    {
      OnlyCutBlockExceeds(groups, kept, blocks, limit, i);
    }
  }

  // The loop's variables against the groups they stand for: the last group is still being filled,
  // or it is full and has been sent already.
  ghost predicate Packed(messages: seq<string>, current: string, p: Packing, limit: nat) {
    if p.group == [] then messages == [] && current == ""
    else if current != "" then messages == JoinAll(p.closed) && current == Join(p.group)
    else messages == JoinAll(p.closed + [p.group]) && |Join(p.group)| + 1 > limit
  }

  ghost predicate Consistent(p: Packing, messages: seq<string>, current: string, sent: seq<string>, limit: nat) {
    && Packed(messages, current, p, limit)
    && (p.group == [] ==> p.closed == [])
    && (p.kept == [] <==> p.group == [])
    && IsSplit(Groups(p.closed, p.group), p.kept, limit)
    && StaysAhead(p.kept, p.closed, p.group, limit)
    && WithoutEmpty(p.kept) == WithoutEmpty(sent)
    && ("" !in sent ==> p.kept == sent)
  }

  lemma TruncateIs(block: string, cut: string, limit: nat)
    requires cut == if |block| > limit then block[..limit] + MARKER else block
    ensures cut == Truncate(block, limit)
  {
  }

  lemma PackStart(limit: nat)
    ensures Consistent(Packing([], [], []), [], "", [], limit)
  {
  }

  lemma PackStep(p: Packing, messages: seq<string>, current: string, sent: seq<string>, block: string, limit: nat) returns (p': Packing)
    requires Consistent(p, messages, current, sent, limit)
    ensures var full := current != "" && |current| + 1 + |block| > limit;
      Consistent(p',
                 if full then messages + [current] else messages,
                 if full || current == "" then block else current + "\n" + block,
                 sent + [block], limit)
  {
    hide Flatten, Join, WithoutEmpty, StaysAhead, IsSplit, Packed;
    KeepBlock(p.kept, sent, block);
    StaysAheadStep(p.kept, p.closed, p.group, block, limit);
    SplitStep(p.closed, p.group, block, p.kept, limit);
    if block == "" && (current == "" || Overflows(p.group, block, limit)) {
      p' := p;
      PackedDrop(p, messages, current, limit);
    } else if Overflows(p.group, block, limit) {
      p' := Packing(p.closed + [p.group], [block], p.kept + [block]);
      PackedClose(p, messages, current, block, limit);
    } else {
      p' := Packing(p.closed, p.group + [block], p.kept + [block]);
      PackedExtend(p, messages, current, block, limit);
    }
  }

  lemma PackedDrop(p: Packing, messages: seq<string>, current: string, limit: nat)
    requires Packed(messages, current, p, limit)
    requires current == "" || Overflows(p.group, "", limit)
    ensures current == "" ==> Packed(messages, "", p, limit)
    ensures current != "" ==> |current| + 1 > limit && Packed(messages + [current], "", p, limit)
  {
    hide Join;
    assert JoinAll(p.closed) + [Join(p.group)] == JoinAll(p.closed + [p.group]);
  }

  lemma PackedClose(p: Packing, messages: seq<string>, current: string, block: string, limit: nat)
    requires Packed(messages, current, p, limit) && Overflows(p.group, block, limit) && block != ""
    ensures Packed(if current != "" then messages + [current] else messages, block,
                   Packing(p.closed + [p.group], [block], p.kept + [block]), limit)
    ensures current != "" ==> |current| + 1 + |block| > limit
  {
    assert JoinAll(p.closed) + [Join(p.group)] == JoinAll(p.closed + [p.group]);
  }

  lemma PackedExtend(p: Packing, messages: seq<string>, current: string, block: string, limit: nat)
    requires Packed(messages, current, p, limit) && !Overflows(p.group, block, limit)
    requires block != "" || current != ""
    requires p.group == [] ==> p.closed == []
    ensures Packed(messages, if current == "" then block else current + "\n" + block,
                   Packing(p.closed, p.group + [block], p.kept + [block]), limit)
    ensures current != "" ==> |current| + 1 + |block| <= limit
  {
    JoinSnoc(p.group, block);
    hide Join;
  }

  lemma PackDone(p: Packing, messages: seq<string>, current: string, sent: seq<string>, limit: nat)
    requires Consistent(p, messages, current, sent, limit)
    ensures var groups := Groups(p.closed, p.group);
      && (if current != "" then messages + [current] else messages) == JoinAll(groups)
      && IsSplit(groups, p.kept, limit)
      && (forall alternative :: IsSplit(alternative, p.kept, limit) ==> |groups| <= |alternative|)
      && WithoutEmpty(p.kept) == WithoutEmpty(sent)
      && ("" !in sent ==> p.kept == sent)
  {
    hide Join;
    assert JoinAll(p.closed) + [Join(p.group)] == JoinAll(p.closed + [p.group]);
  }

  lemma CutBlocksStay(blocks: seq<string>, limit: nat)
    ensures "" !in blocks ==> "" !in TruncateAll(blocks, limit)
  {
    var sent := TruncateAll(blocks, limit);
    if "" in sent {
      var i :| 0 <= i < |sent| && sent[i] == "";
      assert sent[i] == Truncate(blocks[i], limit);
      assert blocks[i] == "";
    }
  }

  lemma KeepBlock(kept: seq<string>, sent: seq<string>, block: string)
    requires WithoutEmpty(kept) == WithoutEmpty(sent)
    ensures WithoutEmpty(kept + [block]) == WithoutEmpty(sent + [block])
    ensures block == "" ==> WithoutEmpty(kept) == WithoutEmpty(sent + [block])
  {
    assert (kept + [block])[..|kept|] == kept;
    assert (sent + [block])[..|sent|] == sent;
  }

  // An alternative split has closed more groups, or as many with at least as full a last group.
  ghost predicate Ahead(closed: seq<seq<string>>, current: seq<string>, alternative: seq<seq<string>>) {
    && alternative != []
    && |closed| + 1 <= |alternative|
    && (|closed| + 1 == |alternative| ==> |Join(current)| <= |Join(alternative[|alternative| - 1])|)
  }

  ghost predicate StaysAhead(blocks: seq<string>, closed: seq<seq<string>>, current: seq<string>, limit: nat) {
    blocks != [] ==> forall alternative :: IsSplit(alternative, blocks, limit) ==> Ahead(closed, current, alternative)
  }

  // Whether the packer starts a new message for `block`.
  ghost predicate Overflows(current: seq<string>, block: string, limit: nat) {
    current != [] && |Join(current)| + 1 + |block| > limit
  }

  lemma JoinSnoc(group: seq<string>, block: string)
    ensures group == [] ==> Join(group + [block]) == block
    ensures group != [] ==> Join(group + [block]) == Join(group) + "\n" + block
  {
    assert (group + [block])[..|group|] == group;
  }

  lemma FlattenSnoc(groups: seq<seq<string>>, group: seq<string>)
    ensures Flatten(groups + [group]) == Flatten(groups) + group
  {
    assert (groups + [group])[..|groups|] == groups;
  }

  // Packing one more block keeps a split of everything packed so far.
  lemma SplitStep(closed: seq<seq<string>>, current: seq<string>, block: string, blocks: seq<string>, limit: nat)
    requires IsSplit(Groups(closed, current), blocks, limit)
    requires current == [] ==> closed == []
    ensures Overflows(current, block, limit) ==> IsSplit(Groups(closed + [current], [block]), blocks + [block], limit)
    ensures !Overflows(current, block, limit) ==> IsSplit(Groups(closed, current + [block]), blocks + [block], limit)
  {
    JoinSnoc(current, block);
    FlattenSnoc(closed, current);
    FlattenSnoc(closed + [current], [block]);
    FlattenSnoc(closed, current + [block]);
    assert Flatten(closed) + (current + [block]) == Flatten(closed) + current + [block];
  }

  // The split an alternative makes of everything but the last block.
  lemma SplitPrefix(alternative: seq<seq<string>>, blocks: seq<string>, block: string, limit: nat) returns (shorter: seq<seq<string>>)
    requires IsSplit(alternative, blocks + [block], limit)
    ensures alternative != [] && IsSplit(shorter, blocks, limit)
    ensures var last := alternative[|alternative| - 1];
      if last == [block] then |shorter| + 1 == |alternative|
      else |shorter| == |alternative| && |last| > 1 && last == shorter[|shorter| - 1] + [block]
  {
    assert alternative != [];
    var k := |alternative| - 1;
    var last := alternative[k];
    assert last in alternative && Sendable(last, limit);
    var g := last[..|last| - 1];
    var whole := blocks + [block];
    assert last == g + [last[|last| - 1]];
    assert whole == (Flatten(alternative[..k]) + g) + [last[|last| - 1]];
    assert whole[..|whole| - 1] == blocks && whole[|whole| - 1] == block;
    assert blocks == Flatten(alternative[..k]) + g;
    if g == [] {
      shorter := alternative[..k];
    } else {
      shorter := alternative[..k] + [g];
      FlattenSnoc(alternative[..k], g);
      JoinSnoc(g, block);
    }
  }

  lemma AheadStep(blocks: seq<string>, closed: seq<seq<string>>, current: seq<string>, block: string, limit: nat, alternative: seq<seq<string>>)
    requires StaysAhead(blocks, closed, current, limit)
    requires blocks == [] <==> current == []
    requires current == [] ==> closed == []
    requires IsSplit(alternative, blocks + [block], limit)
    ensures Overflows(current, block, limit) ==> Ahead(closed + [current], [block], alternative)
    ensures !Overflows(current, block, limit) ==> Ahead(closed, current + [block], alternative)
  {
    var shorter := SplitPrefix(alternative, blocks, block, limit);
    var last := alternative[|alternative| - 1];
    assert last in alternative && Sendable(last, limit);
    JoinSnoc(current, block);
    if last != [block] {
      JoinSnoc(shorter[|shorter| - 1], block);
    }
    if blocks != [] {
      assert Ahead(closed, current, shorter);
    }
  }

  lemma StaysAheadStep(blocks: seq<string>, closed: seq<seq<string>>, current: seq<string>, block: string, limit: nat)
    requires StaysAhead(blocks, closed, current, limit)
    requires blocks == [] <==> current == []
    requires current == [] ==> closed == []
    ensures Overflows(current, block, limit) ==> StaysAhead(blocks + [block], closed + [current], [block], limit)
    ensures !Overflows(current, block, limit) ==> StaysAhead(blocks + [block], closed, current + [block], limit)
  {
    forall alternative | IsSplit(alternative, blocks + [block], limit)
      ensures if Overflows(current, block, limit) then Ahead(closed + [current], [block], alternative) else Ahead(closed, current + [block], alternative)
    {
      AheadStep(blocks, closed, current, block, limit, alternative);
    }
  }

  // Only a cut block can make a message longer than the limit: it is then alone, and the message
  // is the limit plus the marker.
  lemma OnlyCutBlockExceeds(groups: seq<seq<string>>, kept: seq<string>, blocks: seq<string>, limit: nat, i: nat)
    requires IsSplit(groups, kept, limit) && i < |groups|
    requires WithoutEmpty(kept) == WithoutEmpty(TruncateAll(blocks, limit))
    ensures Fits(Join(groups[i]), blocks, limit)
    ensures |Join(groups[i])| > limit ==> |groups[i]| == 1
  {
    var g := groups[i];
    assert g in groups && Sendable(g, limit);
    if |Join(g)| > limit {
      FlattenMember(groups, g, g[0]);
      var sent := TruncateAll(blocks, limit);
      WithoutEmptyMember(kept, g[0]);
      WithoutEmptyMember(sent, g[0]);
      var k :| 0 <= k < |sent| && sent[k] == g[0];
      assert blocks[k] in blocks && sent[k] == Truncate(blocks[k], limit);
    }
  }

  lemma {:induction false} WithoutEmptyMember(blocks: seq<string>, block: string)
    ensures block in WithoutEmpty(blocks) <==> block in blocks && block != ""
  {
    if blocks != [] {
      WithoutEmptyMember(blocks[..|blocks| - 1], block);
      assert blocks == blocks[..|blocks| - 1] + [blocks[|blocks| - 1]];
    }
  }

  lemma {:induction false} FlattenMember(groups: seq<seq<string>>, group: seq<string>, block: string)
    requires group in groups && block in group
    ensures block in Flatten(groups)
  {
    var k := |groups| - 1;
    if group != groups[k] {
      FlattenMember(groups[..k], group, block);
    }
  }

  lemma {:induction false} JoinConcat(left: seq<string>, right: seq<string>)
    requires left != [] && right != []
    ensures Join(left + right) == Join(left) + "\n" + Join(right)
  {
    var n := |right| - 1;
    var last := right[n];
    assert left + right == (left + right[..n]) + [last];
    JoinSnoc(left + right[..n], last);
    if n > 0 {
      JoinConcat(left, right[..n]);
      assert Join(right) == Join(right[..n]) + "\n" + last;
    } else {
      assert left + right[..n] == left;
    }
  }

  // Joining the messages is joining the blocks: no text is lost, added or reordered by the split.
  lemma {:induction false} MessagesJoinToBlocks(groups: seq<seq<string>>, kept: seq<string>, limit: nat)
    requires IsSplit(groups, kept, limit)
    ensures Join(JoinAll(groups)) == Join(kept)
  {
    if groups != [] {
      var n := |groups| - 1;
      var last := groups[n];
      assert last in groups && Sendable(last, limit);
      var front := Flatten(groups[..n]);
      assert IsSplit(groups[..n], front, limit);
      MessagesJoinToBlocks(groups[..n], front, limit);
      assert JoinAll(groups) == JoinAll(groups[..n]) + [Join(last)];
      JoinSnoc(JoinAll(groups[..n]), Join(last));
      if n > 0 {
        FlattenNonEmpty(groups[..n], limit);
        JoinConcat(front, last);
      } else {
        assert front + last == last;
      }
    }
  }

  lemma FlattenNonEmpty(groups: seq<seq<string>>, limit: nat)
    requires groups != [] && forall g :: g in groups ==> Sendable(g, limit)
    ensures Flatten(groups) != []
  {
    assert groups[|groups| - 1] in groups;
  }
}
