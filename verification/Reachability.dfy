/** The blocks that exits lead to from a method's root. */
module Reachability {
  import opened Tac
  import opened FlowGraph
  import opened WellFormed

  type Blocks = map<string, BBlock>

  /** Exits are pointers to blocks of the graph. */
  ghost predicate Closed(blocks: Blocks) {
    forall l, x {:trigger x in Exits(blocks[l])} :: l in blocks && x in Exits(blocks[l]) ==> x in blocks
  }

  /** ls follows exits from its first element to its last. */
  ghost predicate Path(blocks: Blocks, ls: seq<string>) {
    |ls| > 0 && forall i :: 0 <= i < |ls| - 1 ==> ls[i] in blocks && ls[i + 1] in Exits(blocks[ls[i]])
  }

  ghost predicate Reachable(blocks: Blocks, root: string, l: string) {
    exists ls: seq<string> :: Path(blocks, ls) && ls[0] == root && ls[|ls| - 1] == l
  }

  ghost function Reach(blocks: Blocks, root: string): set<string> {
    set l | l in blocks && Reachable(blocks, root, l)
  }

  ghost predicate ClosedUnder(blocks: Blocks, region: set<string>) {
    forall l {:trigger l in region} :: l in region ==> l in blocks && Exits(blocks[l]) <= region
  }

  lemma ReachRoot(blocks: Blocks, root: string)
    requires root in blocks
    ensures root in Reach(blocks, root)
  {
    assert Path(blocks, [root]) && [root][0] == root && [root][|[root]| - 1] == root;
  }

  lemma ReachStep(blocks: Blocks, root: string, l: string, x: string)
    requires Closed(blocks) && l in Reach(blocks, root) && x in Exits(blocks[l])
    ensures x in Reach(blocks, root)
  {
    var ls: seq<string> :| Path(blocks, ls) && ls[0] == root && ls[|ls| - 1] == l;
    var ls' := ls + [x];
    forall i | 0 <= i < |ls'| - 1
      ensures ls'[i] in blocks && ls'[i + 1] in Exits(blocks[ls'[i]])
    {
      if i < |ls| - 1 { assert ls[i + 1] in Exits(blocks[ls[i]]); }
    }
    assert Path(blocks, ls') && ls'[0] == root && ls'[|ls'| - 1] == x;
  }

  lemma {:induction false} PathStays(blocks: Blocks, region: set<string>, ls: seq<string>, i: nat)
    requires Path(blocks, ls) && ls[0] in region && ClosedUnder(blocks, region) && i < |ls|
    ensures ls[i] in region
  {
    if i > 0 {
      PathStays(blocks, region, ls, i - 1);
      assert ls[i - 1 + 1] in Exits(blocks[ls[i - 1]]);
    }
  }

  /** Reach is the least region that holds the root and is closed under exits. */
  lemma ReachLeast(blocks: Blocks, root: string, region: set<string>)
    requires root in region && ClosedUnder(blocks, region)
    ensures Reach(blocks, root) <= region
  {
    forall l | l in Reach(blocks, root)
      ensures l in region
    {
      var ls: seq<string> :| Path(blocks, ls) && ls[0] == root && ls[|ls| - 1] == l;
      PathStays(blocks, region, ls, |ls| - 1);
    }
  }

  lemma ReachClosed(blocks: Blocks, root: string)
    requires Closed(blocks)
    ensures ClosedUnder(blocks, Reach(blocks, root))
  {
    forall l | l in Reach(blocks, root)
      ensures Exits(blocks[l]) <= Reach(blocks, root)
    {
      forall x | x in Exits(blocks[l])
        ensures x in Reach(blocks, root)
      {
        ReachStep(blocks, root, l, x);
      }
    }
  }

  /** With fewer exits no more blocks are reached. */
  lemma ReachShrinks(blocks: Blocks, blocks': Blocks, root: string)
    requires Closed(blocks) && root in blocks && blocks'.Keys == blocks.Keys
    requires forall l :: l in blocks ==> Exits(blocks'[l]) <= Exits(blocks[l])
    ensures Reach(blocks', root) <= Reach(blocks, root)
  {
    ReachRoot(blocks, root);
    ReachClosed(blocks, root);
    assert ClosedUnder(blocks', Reach(blocks, root));
    ReachLeast(blocks', root, Reach(blocks, root));
  }

  /** The labels in the blocks that exits lead to from the root name blocks that exits lead to. */
  ghost predicate LabelsReached(blocks: Blocks, root: string) {
    forall l {:trigger l in Reach(blocks, root)} :: l in Reach(blocks, root) ==> l in blocks && LabelsOf(blocks[l].instrs) <= Reach(blocks, root)
  }

  ghost predicate AllLabelsReached(blocks: Blocks, roots: seq<string>) {
    forall r {:trigger LabelsReached(blocks, r)} {:trigger r in roots} :: r in roots ==> LabelsReached(blocks, r)
  }

  // ----- the worklist -----

  /** Visited and pending blocks of a depth-first walk from root: everything seen is reachable, and whatever a
      visited block leads to has been seen. */
  ghost predicate Walking(blocks: Blocks, root: string, visited: set<string>, stack: seq<string>) {
    && (forall l {:trigger l in visited} :: l in visited ==> l in Reach(blocks, root))
    && (forall l {:trigger l in stack} :: l in stack ==> l in Reach(blocks, root))
    && (root in visited || root in stack)
    && (forall l, x {:trigger l in visited, x in Exits(blocks[l])} :: l in visited && x in Exits(blocks[l]) ==> x in visited || x in stack)
  }

  /** The exits of a block, in the order they are pushed. */
  function Pushed(b: BBlock): seq<string> {
    (if b.trueExit.To? then [b.trueExit.name] else []) + (if b.falseExit.To? then [b.falseExit.name] else [])
  }

  lemma PushedIsExits(b: BBlock)
    ensures forall x :: x in Pushed(b) <==> x in Exits(b)
  {
  }

  lemma WalkStarts(blocks: Blocks, root: string)
    requires root in blocks
    ensures Walking(blocks, root, {}, [root])
  {
    ReachRoot(blocks, root);
  }

  lemma WalkSkips(blocks: Blocks, root: string, visited: set<string>, stack: seq<string>, l: string)
    requires Walking(blocks, root, visited, stack + [l]) && l in visited
    ensures Walking(blocks, root, visited, stack)
  {
    forall x | x in stack
      ensures x in stack + [l]
    {
    }
  }

  lemma WalkVisits(blocks: Blocks, root: string, visited: set<string>, stack: seq<string>, l: string)
    requires Closed(blocks) && Walking(blocks, root, visited, stack + [l])
    ensures l in blocks && Walking(blocks, root, visited + {l}, stack + Pushed(blocks[l]))
  {
    hide Reach, Pushed, Exits;
    var stack' := stack + [l];
    assert l in stack' && l in Reach(blocks, root);
    ReachInside(blocks, root);
    PushedIsExits(blocks[l]);
    forall x | x in stack + Pushed(blocks[l])
      ensures x in Reach(blocks, root)
    {
      if x in stack { assert x in stack'; } else { ReachStep(blocks, root, l, x); }
    }
    forall m, x | m in visited + {l} && x in Exits(blocks[m])
      ensures x in visited + {l} || x in stack + Pushed(blocks[l])
    {
      if m != l { assert x in visited || x in stack'; }
    }
  }

  lemma ReachInside(blocks: Blocks, root: string)
    ensures Reach(blocks, root) <= blocks.Keys
  {
  }

  /** When nothing is pending the visited blocks are exactly the reachable ones. */
  lemma WalkEnds(blocks: Blocks, root: string, visited: set<string>)
    requires Walking(blocks, root, visited, [])
    ensures visited == Reach(blocks, root)
  {
    hide Reach;
    ReachInside(blocks, root);
    assert ClosedUnder(blocks, visited);
    ReachLeast(blocks, root, visited);
  }

  /** collect_method_blocks: every reachable block, once. */
  method CollectMethodBlocks(blocks: Blocks, root: string) returns (order: seq<string>, names: set<string>)
    requires Closed(blocks) && root in blocks
    ensures names == Reach(blocks, root)
    ensures (forall l :: l in order <==> l in names) && |order| == |names|
  {
    hide Walking, Pushed, Exits, Reach;
    order, names := [], {};
    var stack := [root];
    WalkStarts(blocks, root);
    while stack != []
      invariant Walking(blocks, root, names, stack)
      invariant (forall l :: l in order <==> l in names) && |order| == |names|
      decreases blocks.Keys - names, |stack|
    {
      var l, rest := stack[|stack| - 1], stack[..|stack| - 1];
      assert stack == rest + [l];
      stack := rest;
      if l in names {
        WalkSkips(blocks, root, names, rest, l);
        continue;
      }
      WalkVisits(blocks, root, names, rest, l);
      ghost var before := names;
      order, names := order + [l], names + {l};
      assert l in blocks.Keys - before;
      stack := stack + Pushed(blocks[l]);
    }
    WalkEnds(blocks, root, names);
  }
}
