/**
  The greedy loop both monitors use to combine the sorted report blocks
  into chat messages of bounded length: append the next block to the
  message being built while it fits, otherwise send the message and start
  an empty one; send whatever is left at the end.
 */
module Packer {

  function Concat(blocks: seq<string>): string
  {
    if blocks == [] then "" else blocks[0] + Concat(blocks[1..])
  }

  /** All blocks fit the limit on their own; without this the loop never ends. */
  predicate AllFit(blocks: seq<string>, limit: nat)
  {
    forall b :: b in blocks ==> |b| <= limit
  }

  /** Some block is longer than the limit: the first one that is stalls the packing loop. */
  predicate Oversized(blocks: seq<string>, limit: nat)
  {
    blocks != [] && (|blocks[0]| > limit || Oversized(blocks[1..], limit))
  }

  /** `Oversized` is the negation of `AllFit`. */
  lemma {:induction false} OversizedIff(blocks: seq<string>, limit: nat)
    ensures Oversized(blocks, limit) <==> !AllFit(blocks, limit)
  {
    if blocks != [] {
      OversizedIff(blocks[1..], limit);
      assert forall b :: b in blocks <==> b == blocks[0] || b in blocks[1..];
    }
  }

  lemma FitsConcat(a: seq<string>, b: seq<string>, limit: nat)
    ensures AllFit(a + b, limit) <==> AllFit(a, limit) && AllFit(b, limit)
  {
    assert forall x :: x in a + b <==> x in a || x in b;
  }

  /** One turn of the loop: what it sends, and the new `tmpMsg` and `allMsg`. */
  datatype Turn = Turn(sent: seq<string>, tmpMsg: string, allMsg: seq<string>)

  function Step(tmpMsg: string, allMsg: seq<string>, limit: nat): Turn
    requires allMsg != []
  {
    if |tmpMsg| + |allMsg[0]| <= limit then Turn([], tmpMsg + allMsg[0], allMsg[1..])
    else Turn([tmpMsg], "", allMsg)
  }

  /** What the loop sends from a given state, including the leftover message. */
  function Greedy(tmpMsg: string, allMsg: seq<string>, limit: nat): seq<string>
    requires AllFit(allMsg, limit)
    decreases 2 * |allMsg| + (if tmpMsg == "" then 0 else 1)
  {
    if allMsg == [] then (if tmpMsg == "" then [] else [tmpMsg])
    else
      var turn := Step(tmpMsg, allMsg, limit);
      turn.sent + Greedy(turn.tmpMsg, turn.allMsg, limit)
  }

  /**
    The packing loop. Each payload is returned without the prefix the
    caller adds when sending it.
   */
  method Pack(blocks: seq<string>, limit: nat) returns (payloads: seq<string>)
    requires AllFit(blocks, limit)
    ensures payloads == Greedy("", blocks, limit)
    ensures Concat(payloads) == Concat(blocks)
    ensures forall p :: p in payloads ==> 0 < |p| <= limit
    ensures NoMergeablePair(payloads, limit)
    ensures NoEmptyBlock(blocks) ==> WholeBlocks(blocks, payloads, Groups([], blocks, limit), limit)
  {
    var allMsg := blocks;
    var tmpMsg := "";
    payloads := [];
    while |allMsg| > 0
      invariant AllFit(allMsg, limit)
      invariant payloads + Greedy(tmpMsg, allMsg, limit) == Greedy("", blocks, limit)
      decreases 2 * |allMsg| + (if tmpMsg == "" then 0 else 1)
    {
      ghost var rest := Greedy(tmpMsg, allMsg, limit);
      if |tmpMsg| + |allMsg[0]| <= limit {
        assert rest == Greedy(tmpMsg + allMsg[0], allMsg[1..], limit);
        tmpMsg := tmpMsg + allMsg[0];
        allMsg := allMsg[1..];
      } else {
        assert rest == [tmpMsg] + Greedy("", allMsg, limit);
        assert payloads + rest == (payloads + [tmpMsg]) + Greedy("", allMsg, limit);
        payloads := payloads + [tmpMsg];
        tmpMsg := "";
      }
    }
    if tmpMsg != "" {
      payloads := payloads + [tmpMsg];
    }
    GreedyConcat("", blocks, limit);
    GreedyBounded("", blocks, limit);
    GreedyMaximal("", blocks, limit);
    if NoEmptyBlock(blocks) {
      GreedyGroups([], blocks, limit);
      assert [] + blocks == blocks;
    }
  }

  /** Nothing is lost, duplicated or reordered: the payloads spell out the blocks. */
  lemma {:induction false} GreedyConcat(tmpMsg: string, allMsg: seq<string>, limit: nat)
    requires AllFit(allMsg, limit)
    ensures Concat(Greedy(tmpMsg, allMsg, limit)) == tmpMsg + Concat(allMsg)
    decreases 2 * |allMsg| + (if tmpMsg == "" then 0 else 1)
  {
    if allMsg == [] {
      assert tmpMsg + "" == tmpMsg;
    } else if |tmpMsg| + |allMsg[0]| <= limit {
      var next := tmpMsg + allMsg[0];
      GreedyConcat(next, allMsg[1..], limit);
      assert Greedy(tmpMsg, allMsg, limit) == Greedy(next, allMsg[1..], limit);
      assert next + Concat(allMsg[1..]) == tmpMsg + (allMsg[0] + Concat(allMsg[1..]));
    } else {
      var rest := Greedy("", allMsg, limit);
      GreedyConcat("", allMsg, limit);
      assert Greedy(tmpMsg, allMsg, limit) == [tmpMsg] + rest;
      assert ([tmpMsg] + rest)[1..] == rest;
      assert "" + Concat(allMsg) == Concat(allMsg);
    }
  }

  /** Every payload is non-empty and within the limit. */
  lemma {:induction false} GreedyBounded(tmpMsg: string, allMsg: seq<string>, limit: nat)
    requires AllFit(allMsg, limit) && |tmpMsg| <= limit
    ensures forall p :: p in Greedy(tmpMsg, allMsg, limit) ==> 0 < |p| <= limit
    decreases 2 * |allMsg| + (if tmpMsg == "" then 0 else 1)
  {
    if allMsg != [] {
      var turn := Step(tmpMsg, allMsg, limit);
      GreedyBounded(turn.tmpMsg, turn.allMsg, limit);
    }
  }

  /** A state holding a non-empty message sends at least that message first. */
  lemma {:induction false} GreedyFirst(tmpMsg: string, allMsg: seq<string>, limit: nat)
    requires AllFit(allMsg, limit) && tmpMsg != ""
    ensures |Greedy(tmpMsg, allMsg, limit)| > 0
    ensures |Greedy(tmpMsg, allMsg, limit)[0]| >= |tmpMsg|
    decreases 2 * |allMsg|
  {
    if allMsg != [] && |tmpMsg| + |allMsg[0]| <= limit {
      GreedyFirst(tmpMsg + allMsg[0], allMsg[1..], limit);
    }
  }

  /** No two consecutive payloads would have fitted into one. */
  predicate NoMergeablePair(out: seq<string>, limit: nat)
  {
    forall i :: 0 <= i < |out| - 1 ==> |out[i]| + |out[i + 1]| > limit
  }

  /** The packing is greedy: no two consecutive payloads could have been sent as one. */
  lemma {:induction false} GreedyMaximal(tmpMsg: string, allMsg: seq<string>, limit: nat)
    requires AllFit(allMsg, limit) && |tmpMsg| <= limit
    ensures NoMergeablePair(Greedy(tmpMsg, allMsg, limit), limit)
    decreases 2 * |allMsg| + (if tmpMsg == "" then 0 else 1)
  {
    if allMsg != [] {
      var turn := Step(tmpMsg, allMsg, limit);
      GreedyMaximal(turn.tmpMsg, turn.allMsg, limit);
      if turn.sent != [] {
        EmitKeepsMaximal(tmpMsg, allMsg, limit);
      }
    }
  }

  /**
    Sending `tmpMsg` because the next block does not fit it keeps the
    packing greedy: the next payload starts with that block.
   */
  lemma EmitKeepsMaximal(tmpMsg: string, allMsg: seq<string>, limit: nat)
    requires AllFit(allMsg, limit) && |tmpMsg| <= limit
    requires allMsg != [] && |tmpMsg| + |allMsg[0]| > limit
    requires NoMergeablePair(Greedy("", allMsg, limit), limit)
    ensures NoMergeablePair(Greedy(tmpMsg, allMsg, limit), limit)
  {
    var rest := Greedy("", allMsg, limit);
    assert allMsg[0] in allMsg;
    assert "" + allMsg[0] == allMsg[0];
    assert rest == Greedy(allMsg[0], allMsg[1..], limit);
    GreedyFirst(allMsg[0], allMsg[1..], limit);
    assert Greedy(tmpMsg, allMsg, limit) == [tmpMsg] + rest;
    ConsKeepsMaximal(tmpMsg, rest, limit);
  }

  lemma ConsKeepsMaximal(first: string, rest: seq<string>, limit: nat)
    requires rest != [] && |first| + |rest[0]| > limit
    requires NoMergeablePair(rest, limit)
    ensures NoMergeablePair([first] + rest, limit)
  {
    var out := [first] + rest;
    forall i | 0 <= i < |out| - 1
      ensures |out[i]| + |out[i + 1]| > limit
    {
      if i > 0 {
        assert out[i] == rest[i - 1] && out[i + 1] == rest[i];
      }
    }
  }

  predicate NoEmptyBlock(blocks: seq<string>)
  {
    forall b :: b in blocks ==> b != ""
  }

  function Flatten(groups: seq<seq<string>>): seq<string>
  {
    if groups == [] then [] else groups[0] + Flatten(groups[1..])
  }

  /**
    The blocks each payload is made of, when the message being built holds
    the blocks `pending`: the same turns as `Greedy`, with lists of blocks
    in place of their concatenation.
   */
  ghost function Groups(pending: seq<string>, allMsg: seq<string>, limit: nat): seq<seq<string>>
    requires AllFit(allMsg, limit)
    decreases 2 * |allMsg| + (if pending == [] then 0 else 1)
  {
    if allMsg == [] then (if pending == [] then [] else [pending])
    else if |Concat(pending)| + |allMsg[0]| <= limit then Groups(pending + [allMsg[0]], allMsg[1..], limit)
    else [pending] + Groups([], allMsg, limit)
  }

  /**
    The payloads keep every block whole: they are the concatenations of
    consecutive non-empty runs of the blocks, in order, and each payload but
    the last, together with the first block of the next, would exceed the limit.
   */
  ghost predicate WholeBlocks(blocks: seq<string>, payloads: seq<string>, groups: seq<seq<string>>, limit: nat)
  {
    && |groups| == |payloads|
    && Flatten(groups) == blocks
    && (forall i :: 0 <= i < |groups| ==> groups[i] != [] && payloads[i] == Concat(groups[i]))
    && (forall i :: 0 <= i < |groups| - 1 ==> |payloads[i]| + |groups[i + 1][0]| > limit)
  }

  lemma {:induction false} ConcatAppend(s: seq<string>, b: string)
    ensures Concat(s + [b]) == Concat(s) + b
  {
    if s != [] {
      ConcatAppend(s[1..], b);
      assert (s + [b])[1..] == s[1..] + [b];
    }
  }

  /** Moving the first block of `rest` onto the end of `pending` keeps the whole list. */
  lemma MoveFirst(pending: seq<string>, rest: seq<string>)
    requires rest != []
    ensures (pending + [rest[0]]) + rest[1..] == pending + rest
  {
    assert rest == [rest[0]] + rest[1..];
  }

  /** Only the empty list of non-empty blocks concatenates to the empty message. */
  lemma ConcatEmpty(s: seq<string>)
    requires NoEmptyBlock(s)
    ensures Concat(s) == "" <==> s == []
  {
    if s != [] {
      assert s[0] in s;
    }
  }

  /** Sending the blocks `pending` as one payload in front of a whole-block packing of `rest`. */
  lemma ConsWhole(pending: seq<string>, rest: seq<string>, payloads: seq<string>, groups: seq<seq<string>>,
                  limit: nat)
    requires WholeBlocks(rest, payloads, groups, limit)
    requires pending != [] && rest != []
    requires |Concat(pending)| + |rest[0]| > limit
    ensures WholeBlocks(pending + rest, [Concat(pending)] + payloads, [pending] + groups, limit)
  {
    assert groups != [];
    assert rest == groups[0] + Flatten(groups[1..]);
    assert groups[0][0] == rest[0];
    var gs := [pending] + groups;
    assert gs[1..] == groups;
  }

  /** The greedy packing keeps every block whole. */
  lemma {:induction false} GreedyGroups(pending: seq<string>, allMsg: seq<string>, limit: nat)
    requires AllFit(allMsg, limit)
    requires NoEmptyBlock(pending) && NoEmptyBlock(allMsg)
    ensures WholeBlocks(pending + allMsg, Greedy(Concat(pending), allMsg, limit), Groups(pending, allMsg, limit), limit)
    decreases 2 * |allMsg| + (if pending == [] then 0 else 1)
  {
    ConcatEmpty(pending);
    if allMsg == [] {
      assert pending + allMsg == pending;
      if pending != [] {
        assert Flatten([pending]) == pending + Flatten([]);
      }
    } else if |Concat(pending)| + |allMsg[0]| <= limit {
      var b := allMsg[0];
      ConcatAppend(pending, b);
      assert NoEmptyBlock(pending + [b]) by {
        assert b in allMsg;
      }
      assert forall x :: x in allMsg[1..] ==> x in allMsg;
      GreedyGroups(pending + [b], allMsg[1..], limit);
      assert Greedy(Concat(pending), allMsg, limit) == Greedy(Concat(pending) + b, allMsg[1..], limit);
      MoveFirst(pending, allMsg);
    } else {
      assert allMsg[0] in allMsg;
      GreedyGroups([], allMsg, limit);
      assert [] + allMsg == allMsg;
      assert Greedy(Concat(pending), allMsg, limit) == [Concat(pending)] + Greedy("", allMsg, limit);
      ConsWhole(pending, allMsg, Greedy("", allMsg, limit), Groups([], allMsg, limit), limit);
    }
  }

  /** The state after `n` turns of the loop, or earlier if `allMsg` runs out. */
  function Run(n: nat, tmpMsg: string, allMsg: seq<string>, limit: nat): Turn
  {
    if n == 0 || allMsg == [] then Turn([], tmpMsg, allMsg)
    else
      var turn := Step(tmpMsg, allMsg, limit);
      var rest := Run(n - 1, turn.tmpMsg, turn.allMsg, limit);
      Turn(turn.sent + rest.sent, rest.tmpMsg, rest.allMsg)
  }

  /** The blocks in front of the first one longer than the limit (all of them when they all fit). */
  function Fitting(blocks: seq<string>, limit: nat): (r: seq<string>)
    ensures AllFit(r, limit) && |r| <= |blocks|
  {
    if blocks == [] || |blocks[0]| > limit then []
    else [blocks[0]] + Fitting(blocks[1..], limit)
  }

  /**
    `Fitting` keeps a prefix of the blocks; it stops at a block over the
    limit, and keeps them all exactly when every one fits.
   */
  lemma {:induction false} FittingShape(blocks: seq<string>, limit: nat)
    ensures var r := Fitting(blocks, limit);
            && r <= blocks
            && (|r| < |blocks| ==> |blocks[|r|]| > limit)
            && (r == blocks <==> AllFit(blocks, limit))
  {
    if blocks != [] && |blocks[0]| <= limit {
      FittingShape(blocks[1..], limit);
      assert blocks == [blocks[0]] + blocks[1..];
    }
  }

  /** The number of turns the loop takes to use up `allMsg` when every block fits. */
  ghost function Turns(tmpMsg: string, allMsg: seq<string>, limit: nat): nat
    requires AllFit(allMsg, limit)
    decreases 2 * |allMsg| + (if tmpMsg == "" then 0 else 1)
  {
    if allMsg == [] then 0
    else
      var turn := Step(tmpMsg, allMsg, limit);
      1 + Turns(turn.tmpMsg, turn.allMsg, limit)
  }

  /** `a` turns followed by `b` turns are `a + b` turns. */
  lemma {:induction false} RunSplit(a: nat, b: nat, tmpMsg: string, allMsg: seq<string>, limit: nat)
    ensures var first := Run(a, tmpMsg, allMsg, limit);
            var second := Run(b, first.tmpMsg, first.allMsg, limit);
            Run(a + b, tmpMsg, allMsg, limit) == Turn(first.sent + second.sent, second.tmpMsg, second.allMsg)
  {
    if a > 0 && allMsg != [] {
      var turn := Step(tmpMsg, allMsg, limit);
      var first' := Run(a - 1, turn.tmpMsg, turn.allMsg, limit);
      var second := Run(b, first'.tmpMsg, first'.allMsg, limit);
      RunSplit(a - 1, b, turn.tmpMsg, turn.allMsg, limit);
      RunSplitStep(a, b, tmpMsg, allMsg, limit);
    }
  }

  /** The inductive step of `RunSplit`: its claim after the first turn gives its claim. */
  lemma RunSplitStep(a: nat, b: nat, tmpMsg: string, allMsg: seq<string>, limit: nat)
    requires a > 0 && allMsg != []
    requires var turn := Step(tmpMsg, allMsg, limit);
             var first := Run(a - 1, turn.tmpMsg, turn.allMsg, limit);
             var second := Run(b, first.tmpMsg, first.allMsg, limit);
             Run(a - 1 + b, turn.tmpMsg, turn.allMsg, limit) == Turn(first.sent + second.sent, second.tmpMsg, second.allMsg)
    ensures var first := Run(a, tmpMsg, allMsg, limit);
            var second := Run(b, first.tmpMsg, first.allMsg, limit);
            Run(a + b, tmpMsg, allMsg, limit) == Turn(first.sent + second.sent, second.tmpMsg, second.allMsg)
  {
    var turn := Step(tmpMsg, allMsg, limit);
    var first' := Run(a - 1, turn.tmpMsg, turn.allMsg, limit);
    var second := Run(b, first'.tmpMsg, first'.allMsg, limit);
    assert turn.sent + (first'.sent + second.sent) == (turn.sent + first'.sent) + second.sent;
  }

  /**
    Running the loop over blocks that all fit, with more blocks behind
    them: after `Turns` turns the fitting blocks are used up, and what was
    sent, followed by the message still being built, is `Greedy`.
   */
  lemma {:induction false} RunThrough(tmpMsg: string, before: seq<string>, after: seq<string>, limit: nat)
    requires AllFit(before, limit)
    ensures var r := Run(Turns(tmpMsg, before, limit), tmpMsg, before + after, limit);
            && r.allMsg == after
            && r.sent + (if r.tmpMsg == "" then [] else [r.tmpMsg]) == Greedy(tmpMsg, before, limit)
    decreases 2 * |before| + (if tmpMsg == "" then 0 else 1)
  {
    if before == [] {
      assert before + after == after;
    } else {
      var turn := Step(tmpMsg, before, limit);
      RunThrough(turn.tmpMsg, turn.allMsg, after, limit);
      RunThroughStep(tmpMsg, before, after, limit);
    }
  }

  /** The inductive step of `RunThrough`: its claim after the first turn gives its claim. */
  lemma RunThroughStep(tmpMsg: string, before: seq<string>, after: seq<string>, limit: nat)
    requires AllFit(before, limit) && before != []
    requires var turn := Step(tmpMsg, before, limit);
             var r := Run(Turns(turn.tmpMsg, turn.allMsg, limit), turn.tmpMsg, turn.allMsg + after, limit);
             && r.allMsg == after
             && r.sent + (if r.tmpMsg == "" then [] else [r.tmpMsg]) == Greedy(turn.tmpMsg, turn.allMsg, limit)
    ensures var r := Run(Turns(tmpMsg, before, limit), tmpMsg, before + after, limit);
            && r.allMsg == after
            && r.sent + (if r.tmpMsg == "" then [] else [r.tmpMsg]) == Greedy(tmpMsg, before, limit)
  {
    var turn := Step(tmpMsg, before, limit);
    StepAppend(tmpMsg, before, after, limit);
    var n := Turns(turn.tmpMsg, turn.allMsg, limit);
    var rest := Run(n, turn.tmpMsg, turn.allMsg + after, limit);
    assert Turns(tmpMsg, before, limit) == n + 1;
    assert Run(n + 1, tmpMsg, before + after, limit) == Turn(turn.sent + rest.sent, rest.tmpMsg, rest.allMsg);
    var tail := if rest.tmpMsg == "" then [] else [rest.tmpMsg];
    assert (turn.sent + rest.sent) + tail == turn.sent + (rest.sent + tail);
  }

  /** A turn only looks at the first block, so more blocks behind do not change it. */
  lemma StepAppend(tmpMsg: string, before: seq<string>, after: seq<string>, limit: nat)
    requires before != []
    ensures var turn := Step(tmpMsg, before, limit);
            Step(tmpMsg, before + after, limit) == Turn(turn.sent, turn.tmpMsg, turn.allMsg + after)
  {
    var whole := before + after;
    assert whole[0] == before[0];
    assert whole[1..] == before[1..] + after;
  }

  /**
    A block longer than the limit is never consumed, whatever the state:
    the loop over blocks that do not all fit never runs out of blocks.
   */
  lemma {:induction false} NeverFinishes(n: nat, tmpMsg: string, allMsg: seq<string>, limit: nat)
    requires !AllFit(allMsg, limit)
    ensures var r := Run(n, tmpMsg, allMsg, limit); r.allMsg != [] && !AllFit(r.allMsg, limit)
  {
    if n > 0 {
      var turn := Step(tmpMsg, allMsg, limit);
      if |tmpMsg| + |allMsg[0]| <= limit {
        assert allMsg == [allMsg[0]] + allMsg[1..];
        assert !AllFit(allMsg[1..], limit);
      }
      NeverFinishes(n - 1, turn.tmpMsg, turn.allMsg, limit);
    }
  }

  /** `m` empty payloads. */
  function Blanks(m: nat): seq<string>
  {
    seq(m, _ => "")
  }

  /** Facing a block longer than the limit with an empty message, each turn sends an empty payload. */
  lemma {:induction false} EmptyTurns(allMsg: seq<string>, limit: nat, m: nat)
    requires allMsg != [] && |allMsg[0]| > limit
    ensures Run(m, "", allMsg, limit) == Turn(Blanks(m), "", allMsg)
  {
    if m > 0 {
      EmptyTurns(allMsg, limit, m - 1);
      assert [""] + Blanks(m - 1) == Blanks(m);
    }
  }

  /**
    The loop's state `r` faces the blocks `after` with an empty message,
    having sent `packed` and then at least `m` empty payloads, and nothing else.
   */
  predicate Stalled(r: Turn, packed: seq<string>, after: seq<string>, m: nat)
  {
    && r.tmpMsg == "" && r.allMsg == after
    && packed <= r.sent && |r.sent| >= |packed| + m
    && forall i :: |packed| <= i < |r.sent| ==> r.sent[i] == ""
  }

  /**
    From an empty message, a loop over blocks that do not all fit sends the
    greedy packing of the blocks in front of the first oversized one and
    then only empty payloads, as many as one likes: after `m` more turns it
    has sent at least `m` of them and still faces that block.
   */
  lemma OversizedBlockStalls(allMsg: seq<string>, limit: nat, m: nat)
    requires !AllFit(allMsg, limit)
    ensures var before := Fitting(allMsg, limit);
            var packed := Greedy("", before, limit);
            var r := Run(Turns("", before, limit) + 1 + m, "", allMsg, limit);
            Stalled(r, packed, allMsg[|before|..], m)
  {
    var before := Fitting(allMsg, limit);
    FittingSplit(allMsg, limit);
    var after := allMsg[|before|..];
    var k := Turns("", before, limit);
    RunThrough("", before, after, limit);
    var drained := Run(k, "", allMsg, limit);
    DrainEmitStall(k, allMsg, after, limit, m);
    EmptyPadding(drained.sent, drained.tmpMsg, Greedy("", before, limit), m);
  }

  /** Blocks that do not all fit are `Fitting`'s blocks followed by an oversized one and the rest. */
  lemma FittingSplit(allMsg: seq<string>, limit: nat)
    requires !AllFit(allMsg, limit)
    ensures var before := Fitting(allMsg, limit);
            && |before| < |allMsg| && allMsg == before + allMsg[|before|..]
            && |allMsg[|before|..][0]| > limit
  {
    var before := Fitting(allMsg, limit);
    FittingShape(allMsg, limit);
    assert allMsg[|before|..][0] == allMsg[|before|];
  }

  /**
    Once `k` turns have left the oversized block `after[0]` at the head,
    one more turn sends the message being built and each of the next `m`
    sends an empty payload.
   */
  lemma DrainEmitStall(k: nat, allMsg: seq<string>, after: seq<string>, limit: nat, m: nat)
    requires after != [] && |after[0]| > limit
    requires Run(k, "", allMsg, limit).allMsg == after
    ensures var drained := Run(k, "", allMsg, limit);
            Run(k + 1 + m, "", allMsg, limit) == Turn(drained.sent + [drained.tmpMsg] + Blanks(m), "", after)
  {
    var drained := Run(k, "", allMsg, limit);
    EmitOversized(drained.tmpMsg, after, limit);
    RunSplit(k, 1, "", allMsg, limit);
    var emitted := Run(k + 1, "", allMsg, limit);
    assert emitted == Turn(drained.sent + [drained.tmpMsg], "", after);
    EmptyTurns(after, limit, m);
    RunSplit(k + 1, m, "", allMsg, limit);
  }

  lemma EmitOversized(tmpMsg: string, allMsg: seq<string>, limit: nat)
    requires allMsg != [] && |allMsg[0]| > limit
    ensures Run(1, tmpMsg, allMsg, limit) == Turn([tmpMsg], "", allMsg)
  {
    assert [tmpMsg] + [] == [tmpMsg];
  }

  /** The drained payloads, the message being built and `m` empty payloads, against `packed`. */
  lemma EmptyPadding(sent: seq<string>, tmpMsg: string, packed: seq<string>, m: nat)
    requires sent + (if tmpMsg == "" then [] else [tmpMsg]) == packed
    ensures var all := sent + [tmpMsg] + Blanks(m);
            && packed <= all && |all| >= |packed| + m
            && forall i :: |packed| <= i < |all| ==> all[i] == ""
  {
  }
}
