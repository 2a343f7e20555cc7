/** The two optimisation passes over a whole graph (src/ir/passes), and their manager. */
module Passes {
  import opened Tac
  import opened FlowGraph
  import opened WellFormed
  import opened Reachability
  import CF = ConstantFolding
  import JF = JumpFolding

  // ----- constant folding -----

  function FoldedBlock(b: BBlock): BBlock {
    BBlock(CF.FoldBlock(b.instrs), b.trueExit, b.falseExit)
  }

  function FoldConstantsIn(blocks: Blocks, region: set<string>): Blocks {
    map l | l in blocks :: if l in region then FoldedBlock(blocks[l]) else blocks[l]
  }

  /** The blocks some root leads to. */
  ghost function Reached(blocks: Blocks, roots: seq<string>): set<string> {
    set l | l in blocks && exists r :: r in roots && l in Reach(blocks, r)
  }

  lemma FoldKeepsExits(blocks: Blocks, region: set<string>)
    requires Closed(blocks)
    ensures var after := FoldConstantsIn(blocks, region);
            && after.Keys == blocks.Keys && Closed(after)
            && forall l :: l in blocks ==> Exits(after[l]) == Exits(blocks[l])
  {
    var after := FoldConstantsIn(blocks, region);
    forall l, x | l in after && x in Exits(after[l])
      ensures x in after
    {
      assert x in Exits(blocks[l]);
    }
  }

  lemma FoldOneMore(blocks: Blocks, region: set<string>, l: string)
    requires l in blocks && l !in region
    ensures FoldConstantsIn(blocks, region)[l := FoldedBlock(blocks[l])] == FoldConstantsIn(blocks, region + {l})
    ensures FoldConstantsIn(blocks, region)[l] == blocks[l]
    ensures FoldConstantsIn(blocks, region + {l}) != blocks <==> FoldConstantsIn(blocks, region) != blocks || FoldedBlock(blocks[l]) != blocks[l]
  {
    hide FoldedBlock;
    var before, after := FoldConstantsIn(blocks, region), FoldConstantsIn(blocks, region + {l});
    if before != blocks {
      var m :| m in blocks && before[m] != blocks[m];
      assert after[m] == before[m];
    }
    if FoldedBlock(blocks[l]) != blocks[l] { assert after[l] != blocks[l]; }
  }

  /** process_method_root of the constant-folding pass: exactly the reachable blocks are folded, and the
      result tells whether any of them changed. */
  method FoldConstantsFrom(graph: Cfg, root: string) returns (changed: bool)
    requires Closed(graph.blocks) && root in graph.blocks
    modifies graph`blocks
    ensures graph.blocks == FoldConstantsIn(old(graph.blocks), Reach(old(graph.blocks), root))
    ensures changed == (graph.blocks != old(graph.blocks))
  {
    hide Walking, Pushed, Exits, Reach, FoldConstantsIn, FoldedBlock;
    ghost var blocks := graph.blocks;
    var stack, visited: set<string> := [root], {};
    changed := false;
    WalkStarts(blocks, root);
    FoldNone(blocks);
    while stack != []
      invariant Walking(blocks, root, visited, stack)
      invariant graph.blocks == FoldConstantsIn(blocks, visited)
      invariant changed == (graph.blocks != blocks)
      decreases blocks.Keys - visited, |stack|
    {
      var l, rest := stack[|stack| - 1], stack[..|stack| - 1];
      assert stack == rest + [l];
      stack := rest;
      if l in visited {
        WalkSkips(blocks, root, visited, rest, l);
        continue;
      }
      WalkVisits(blocks, root, visited, rest, l);
      FoldOneMore(blocks, visited, l);
      FoldKeepsExits(blocks, visited);
      assert l in blocks.Keys - visited;
      visited := visited + {l};
      var b := graph.blocks[l];
      var c, r := FoldBlockOf(b);
      graph.blocks := graph.blocks[l := r];
      changed := c || changed;
      stack := stack + Pushed(b);
    }
    WalkEnds(blocks, root, visited);
  }

  lemma FoldNone(blocks: Blocks)
    ensures FoldConstantsIn(blocks, {}) == blocks
  {
  }

  method FoldBlockOf(b: BBlock) returns (changed: bool, r: BBlock)
    ensures r == FoldedBlock(b) && changed == (r != b)
  {
    hide CF.FoldBlock;
    var instructions := new Instr[|b.instrs|](i requires 0 <= i < |b.instrs| => b.instrs[i]);
    assert instructions[..] == b.instrs;
    changed := CF.ProcessBlock(instructions);
    r := BBlock(instructions[..], b.trueExit, b.falseExit);
  }

  lemma {:induction false} PathSame(blocks: Blocks, blocks': Blocks, root: string)
    requires blocks'.Keys == blocks.Keys && forall l :: l in blocks ==> Exits(blocks'[l]) == Exits(blocks[l])
    requires root in blocks && Closed(blocks)
    ensures Reach(blocks', root) == Reach(blocks, root)
  {
    ReachShrinks(blocks, blocks', root);
    forall l, x | l in blocks' && x in Exits(blocks'[l])
      ensures x in blocks'
    {
      assert x in Exits(blocks[l]);
    }
    ReachShrinks(blocks', blocks, root);
  }

  /** A block folded from two roots is folded once: folding is idempotent. */
  lemma FoldRegions(blocks: Blocks, region: set<string>, region': set<string>)
    ensures FoldConstantsIn(FoldConstantsIn(blocks, region), region') == FoldConstantsIn(blocks, region + region')
    ensures FoldConstantsIn(blocks, region + region') != blocks <==>
            FoldConstantsIn(blocks, region) != blocks || FoldConstantsIn(FoldConstantsIn(blocks, region), region') != FoldConstantsIn(blocks, region)
  {
    hide CF.FoldBlock;
    var once, twice, both := FoldConstantsIn(blocks, region), FoldConstantsIn(FoldConstantsIn(blocks, region), region'), FoldConstantsIn(blocks, region + region');
    forall l | l in blocks
      ensures twice[l] == both[l]
    {
      if l in region && l in region' { CF.FoldBlockIdempotent(blocks[l].instrs); }
    }
    if once != blocks {
      var l :| l in blocks && once[l] != blocks[l];
      assert both[l] == once[l];
    }
  }

  lemma ReachedMore(blocks: Blocks, roots: seq<string>, i: nat)
    requires i < |roots|
    ensures Reached(blocks, roots[..i]) + Reach(blocks, roots[i]) == Reached(blocks, roots[..i + 1])
  {
    hide Reachable;
    assert roots[..i + 1] == roots[..i] + [roots[i]];
    assert roots[i] in roots[..i + 1];
    forall l | l in blocks
      ensures l in Reached(blocks, roots[..i + 1]) <==> l in Reached(blocks, roots[..i]) || l in Reach(blocks, roots[i])
    {
      if r :| r in roots[..i] && l in Reach(blocks, r) { assert r in roots[..i + 1]; }
      if r :| r in roots[..i + 1] && l in Reach(blocks, r) { assert r in roots[..i] || r == roots[i]; }
    }
  }

  /** The constant-folding pass: every block some root leads to is folded, no other, and the result tells
      exactly whether the graph changed. */
  method RunConstantFolding(graph: Cfg) returns (changed: bool)
    requires Closed(graph.blocks) && forall r :: r in graph.roots ==> r in graph.blocks
    modifies graph`blocks
    ensures graph.blocks == FoldConstantsIn(old(graph.blocks), Reached(old(graph.blocks), graph.roots))
    ensures changed == (graph.blocks != old(graph.blocks))
  {
    hide Reach, FoldConstantsIn, Reached, Exits;
    ghost var blocks := graph.blocks;
    changed := false;
    FoldNone(blocks);
    ReachedNone(blocks);
    for i := 0 to |graph.roots|
      invariant graph.blocks == FoldConstantsIn(blocks, Reached(blocks, graph.roots[..i]))
      invariant changed == (graph.blocks != blocks)
    {
      ghost var region := Reached(blocks, graph.roots[..i]);
      FoldKeepsExits(blocks, region);
      PathSame(blocks, graph.blocks, graph.roots[i]);
      FoldRegions(blocks, region, Reach(blocks, graph.roots[i]));
      ReachedMore(blocks, graph.roots, i);
      var c := FoldConstantsFrom(graph, graph.roots[i]);
      changed := c || changed;
    }
    assert graph.roots[..|graph.roots|] == graph.roots;
  }

  lemma ReachedNone(blocks: Blocks)
    ensures Reached(blocks, []) == {}
  {
  }

  // ----- conditional-jump folding -----

  function FoldJumpsIn(blocks: Blocks, region: set<string>, names: set<string>): Blocks {
    map l | l in blocks :: if l in region then JF.FoldJumps(blocks[l], names) else blocks[l]
  }

  /** The effect of one root: the blocks it leads to are collected first, then each is processed. */
  ghost function FoldJumpsOf(blocks: Blocks, root: string): Blocks {
    FoldJumpsIn(blocks, Reach(blocks, root), Reach(blocks, root))
  }

  ghost function FoldJumpsOfAll(blocks: Blocks, roots: seq<string>): Blocks {
    if roots == [] then blocks else FoldJumpsOf(FoldJumpsOfAll(blocks, roots[..|roots| - 1]), roots[|roots| - 1])
  }

  /** Blocks changed so far have a conditional jump turned into a jump. */
  ghost predicate OnlyTurned(blocks: Blocks, after: Blocks) {
    after.Keys == blocks.Keys && forall l {:trigger after[l]} :: l in blocks ==> after[l] == blocks[l] || JF.Turned(blocks[l], after[l])
  }

  lemma OnlyTurnedTrans(a: Blocks, b: Blocks, c: Blocks)
    requires OnlyTurned(a, b) && OnlyTurned(b, c)
    ensures OnlyTurned(a, c) && (c == a <==> b == a && c == b)
  {
    hide JF.Turned;
    forall l | l in a
      ensures c[l] == a[l] || JF.Turned(a[l], c[l])
      ensures c[l] == a[l] <==> b[l] == a[l] && c[l] == b[l]
    {
      if JF.Turned(a[l], b[l]) && JF.Turned(b[l], c[l]) {
        JF.TurnedTrans(a[l], b[l], c[l]);
        JF.TurnedDiffers(a[l], c[l]);
      } else if JF.Turned(a[l], b[l]) {
        JF.TurnedDiffers(a[l], b[l]);
      } else if JF.Turned(b[l], c[l]) {
        JF.TurnedDiffers(b[l], c[l]);
      }
    }
    if c == a {
      forall l | l in a
        ensures b[l] == a[l]
      {
        assert c[l] == a[l];
      }
      assert b == a;
    }
  }

  lemma ExitsOfFold(b: BBlock, i: nat, names: set<string>)
    ensures Exits(JF.FoldFrom(b, i, names)) <= Exits(b) + names
    decreases |b.instrs| - i
  {
    if i < |b.instrs| {
      if JF.ConstantBranch(b.instrs[i]) && JF.Decide(b, i, names).0.To? {
        var d := JF.Decide(b, i, names);
        ExitsOfFold(JF.ApplyFold(b, i, d.0.name, d.1.name), i + 1, names);
      } else {
        ExitsOfFold(b, i + 1, names);
      }
    }
  }

  lemma FoldJumpsClosed(blocks: Blocks, region: set<string>, names: set<string>)
    requires Closed(blocks) && names <= blocks.Keys
    ensures Closed(FoldJumpsIn(blocks, region, names)) && FoldJumpsIn(blocks, region, names).Keys == blocks.Keys
  {
    hide JF.FoldFrom, Exits;
    var after := FoldJumpsIn(blocks, region, names);
    forall l, x | l in after && x in Exits(after[l])
      ensures x in after
    {
      ExitsOfFold(blocks[l], 0, names);
      assert x in Exits(blocks[l]) || x in names;
    }
  }

  /** process_method_root of the conditional-jump-folding pass. */
  method FoldJumpsFrom(graph: Cfg, root: string) returns (changed: bool)
    requires Closed(graph.blocks) && root in graph.blocks
    modifies graph`blocks
    ensures graph.blocks == FoldJumpsOf(old(graph.blocks), root) && Closed(graph.blocks)
    ensures OnlyTurned(old(graph.blocks), graph.blocks)
    ensures changed == (graph.blocks != old(graph.blocks))
  {
    hide Reach, JF.FoldJumps, FoldJumpsIn, JF.Turned, Exits;
    ghost var blocks := graph.blocks;
    var order, names := CollectMethodBlocks(graph.blocks, root);
    ReachInside(blocks, root);
    OrderDistinct(order, names);
    changed := false;
    FoldNoJumps(blocks, names);
    assert Firsts(order, 0) == {};
    for i := 0 to |order|
      invariant graph.blocks == FoldJumpsIn(blocks, Firsts(order, i), names)
      invariant OnlyTurned(blocks, graph.blocks)
      invariant changed == (graph.blocks != blocks)
    {
      assert order[i] in names;
      FoldOneJump(blocks, order, i, names);
      ghost var before := graph.blocks;
      var r, c := JF.ProcessBlock(graph.blocks[order[i]], names);
      graph.blocks := graph.blocks[order[i] := r];
      if c { JF.TurnedDiffers(before[order[i]], r); }
      OnlyTurnedTrans(blocks, before, graph.blocks);
      changed := c || changed;
    }
    FirstsAll(order, names);
    FoldJumpsClosed(blocks, names, names);
  }

  function Firsts(order: seq<string>, i: nat): set<string>
    requires i <= |order|
  {
    set l | l in order[..i]
  }

  lemma FirstsAll(order: seq<string>, names: set<string>)
    requires forall l :: l in order <==> l in names
    ensures Firsts(order, |order|) == names
  {
    assert order[..|order|] == order;
  }

  lemma FoldNoJumps(blocks: Blocks, names: set<string>)
    ensures FoldJumpsIn(blocks, {}, names) == blocks
  {
  }

  lemma {:induction false} OrderDistinct(order: seq<string>, names: set<string>)
    requires (forall l :: l in order <==> l in names) && |order| == |names|
    ensures forall i :: 0 <= i < |order| ==> order[i] !in order[..i]
  {
    if i :| 0 <= i < |order| && order[i] in order[..i] {
      var shorter := order[..i] + order[i + 1..];
      assert order == order[..i] + [order[i]] + order[i + 1..];
      forall l | l in names
        ensures l in shorter
      {
        assert l in order;
      }
      AtMostLength(shorter, names);
    }
  }

  lemma {:induction false} AtMostLength(order: seq<string>, names: set<string>)
    requires forall l :: l in names ==> l in order
    ensures |names| <= |order|
  {
    if order != [] {
      var rest := names - {order[0]};
      AtMostLength(order[1..], rest) by {
        forall l | l in rest
          ensures l in order[1..]
        {
          assert order == [order[0]] + order[1..];
        }
      }
    } else {
      assert names == {};
    }
  }

  lemma FoldOneJump(blocks: Blocks, order: seq<string>, i: nat, names: set<string>)
    requires i < |order| && order[i] in blocks && order[i] !in order[..i]
    ensures var b, l := FoldJumpsIn(blocks, Firsts(order, i), names), order[i];
            b[l] == blocks[l] && b[l := JF.FoldJumps(blocks[l], names)] == FoldJumpsIn(blocks, Firsts(order, i + 1), names)
  {
    hide JF.FoldJumps;
    assert order[..i + 1] == order[..i] + [order[i]];
  }

  /** The conditional-jump-folding pass: its effect root by root, and a result that tells exactly whether the
      graph changed. */
  method RunJumpFolding(graph: Cfg) returns (changed: bool)
    requires Closed(graph.blocks) && forall r :: r in graph.roots ==> r in graph.blocks
    modifies graph`blocks
    ensures graph.blocks == FoldJumpsOfAll(old(graph.blocks), graph.roots) && Closed(graph.blocks)
    ensures changed == (graph.blocks != old(graph.blocks))
  {
    hide FoldJumpsOf, JF.Turned, Exits;
    ghost var blocks := graph.blocks;
    changed := false;
    for i := 0 to |graph.roots|
      invariant graph.blocks == FoldJumpsOfAll(blocks, graph.roots[..i]) && Closed(graph.blocks)
      invariant OnlyTurned(blocks, graph.blocks)
      invariant changed == (graph.blocks != blocks)
    {
      ghost var before := graph.blocks;
      var c := FoldJumpsFrom(graph, graph.roots[i]);
      OnlyTurnedTrans(blocks, before, graph.blocks);
      assert graph.roots[..i + 1][..i] == graph.roots[..i];
      changed := c || changed;
    }
    assert graph.roots[..|graph.roots|] == graph.roots;
  }

  // ----- the pass manager -----

  datatype Pass = ConstantFoldingPass | ConditionalJumpFoldingPass

  ghost function After(pass: Pass, blocks: Blocks, roots: seq<string>): Blocks {
    match pass
    case ConstantFoldingPass => FoldConstantsIn(blocks, Reached(blocks, roots))
    case ConditionalJumpFoldingPass => FoldJumpsOfAll(blocks, roots)
  }

  ghost function AfterAll(passes: seq<Pass>, blocks: Blocks, roots: seq<string>): Blocks {
    if passes == [] then blocks else After(passes[|passes| - 1], AfterAll(passes[..|passes| - 1], blocks, roots), roots)
  }

  /** Some pass of the list changed what the ones before it had left. */
  ghost predicate SomePassChanges(passes: seq<Pass>, blocks: Blocks, roots: seq<string>) {
    exists i :: 0 <= i < |passes| && ChangesAt(passes, i, blocks, roots)
  }

  ghost predicate ChangesAt(passes: seq<Pass>, i: nat, blocks: Blocks, roots: seq<string>)
    requires i < |passes|
  {
    AfterAll(passes[..i + 1], blocks, roots) != AfterAll(passes[..i], blocks, roots)
  }

  method RunPass(pass: Pass, graph: Cfg) returns (changed: bool)
    requires Closed(graph.blocks) && forall r :: r in graph.roots ==> r in graph.blocks
    modifies graph`blocks
    ensures graph.blocks == After(pass, old(graph.blocks), graph.roots)
    ensures Closed(graph.blocks) && graph.blocks.Keys == old(graph.blocks).Keys
    ensures changed == (graph.blocks != old(graph.blocks))
  {
    hide Reached, Exits;
    match pass
    case ConstantFoldingPass =>
      FoldKeepsExits(graph.blocks, Reached(graph.blocks, graph.roots));
      changed := RunConstantFolding(graph);
    case ConditionalJumpFoldingPass =>
      FoldJumpsKeys(graph.blocks, graph.roots);
      changed := RunJumpFolding(graph);
  }

  lemma FoldJumpsKeys(blocks: Blocks, roots: seq<string>)
    ensures FoldJumpsOfAll(blocks, roots).Keys == blocks.Keys
  {
    hide Reach, JF.FoldJumps;
    if roots != [] { FoldJumpsKeys(blocks, roots[..|roots| - 1]); }
  }

  /** The passes one after the other; the result tells whether any of them changed the graph. */
  method RunPasses(passes: seq<Pass>, graph: Cfg) returns (changed: bool)
    requires Closed(graph.blocks) && forall r :: r in graph.roots ==> r in graph.blocks
    modifies graph`blocks
    ensures graph.blocks == AfterAll(passes, old(graph.blocks), graph.roots)
    ensures changed <==> SomePassChanges(passes, old(graph.blocks), graph.roots)
  {
    hide After, Closed;
    ghost var blocks := graph.blocks;
    changed := false;
    for i := 0 to |passes|
      invariant Closed(graph.blocks) && graph.blocks.Keys == blocks.Keys
      invariant graph.blocks == AfterAll(passes[..i], blocks, graph.roots)
      invariant changed <==> exists j :: 0 <= j < i && ChangesAt(passes, j, blocks, graph.roots)
    {
      assert passes[..i + 1][..i] == passes[..i] && passes[..i + 1][i] == passes[i];
      var c := RunPass(passes[i], graph);
      assert c <==> ChangesAt(passes, i, blocks, graph.roots);
      changed := c || changed;
    }
    assert passes[..|passes|] == passes;
  }
}
