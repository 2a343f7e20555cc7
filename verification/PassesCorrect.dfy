/** Both passes keep the graph sound and preserve the behaviour of the code, in any order and number. */
module PassesCorrect {
  import opened Tac
  import opened FlowGraph
  import opened WellFormed
  import opened ExitTargets
  import opened Reachability
  import opened Passes
  import opened IrMachine
  import CF = ConstantFolding
  import JF = JumpFolding
  import Source

  ghost predicate AllClosedWell(blocks: Blocks) {
    forall l {:trigger blocks[l]} :: l in blocks ==> Agrees(blocks[l]) && AllClean(blocks[l].instrs)
  }

  /** Exits agree with labels and stay inside the method; instructions are clean. */
  ghost predicate Sound(blocks: Blocks, roots: seq<string>, owner: map<string, string>) {
    Owned(blocks, roots, owner) && AllClosedWell(blocks)
  }

  ghost predicate AllTidy(blocks: Blocks) {
    forall l {:trigger blocks[l]} :: l in blocks ==> Shaped(blocks[l]) && CleanBlock(blocks[l])
  }

  /** What generation ensures of any program: exits stay inside the method, whether they agree with labels or not;
      blocks have their shape, and instructions are clean. */
  ghost predicate Tidy(blocks: Blocks, roots: seq<string>, owner: map<string, string>) {
    Owned(blocks, roots, owner) && AllRoots(roots) && AllTidy(blocks)
  }

  lemma SoundClosed(blocks: Blocks, roots: seq<string>, owner: map<string, string>)
    requires Owned(blocks, roots, owner)
    ensures Closed(blocks) && forall r :: r in roots ==> r in blocks
  {
    forall l, x | l in blocks && x in Exits(blocks[l])
      ensures x in blocks
    {
      assert x in owner;
    }
  }

  lemma FewerExitsOwned(blocks: Blocks, after: Blocks, roots: seq<string>, owner: map<string, string>)
    requires Owned(blocks, roots, owner) && after.Keys == blocks.Keys
    requires forall l :: l in blocks ==> Exits(after[l]) <= Exits(blocks[l])
    ensures Owned(after, roots, owner)
  {
    forall l, x | l in after && x in Exits(after[l])
      ensures x in after && owner[x] == owner[l] && x !in roots
    {
      assert x in Exits(blocks[l]);
    }
  }

  // ----- constant folding -----

  lemma FoldedControl(ts: seq<Instr>, i: nat)
    requires i < |ts|
    ensures var t := CF.FoldBlock(ts)[i];
            && Straight(t) == Straight(ts[i]) && (ts[i].Jump? ==> t == ts[i])
            && (ts[i].CondJump? ==> t.CondJump? && t.target == ts[i].target) && (ts[i].Return? ==> t.Return?)
            && (Defines(t) ==> Defines(ts[i]) && t.result == ts[i].result)
  {
    CF.FoldKeepsControl(ts[i], CF.EnvAt(ts, i));
  }

  lemma FoldedStraight(ts: seq<Instr>, n: nat)
    requires n <= |ts|
    ensures AllStraight(CF.FoldBlock(ts)[..n]) == AllStraight(ts[..n])
  {
    hide CF.FoldBlock;
    forall i | 0 <= i < n
      ensures Straight(CF.FoldBlock(ts)[..n][i]) == Straight(ts[..n][i])
    {
      FoldedControl(ts, i);
    }
  }

  /** Folding keeps the shape of a block. */
  lemma FoldedAgrees(b: BBlock)
    requires Agrees(b)
    ensures Agrees(FoldedBlock(b))
  {
    hide CF.FoldBlock, AllStraight;
    var ts, n := b.instrs, |b.instrs|;
    FoldedStraight(ts, n);
    assert ts[..n] == ts && CF.FoldBlock(ts)[..n] == CF.FoldBlock(ts);
    if n >= 1 {
      FoldedControl(ts, n - 1);
      FoldedStraight(ts, n - 1);
    }
    if n >= 2 {
      FoldedControl(ts, n - 2);
      FoldedStraight(ts, n - 2);
    }
  }

  lemma FoldedShaped(b: BBlock)
    requires Shaped(b)
    ensures Shaped(FoldedBlock(b))
  {
    hide CF.FoldBlock, AllStraight;
    var ts, n := b.instrs, |b.instrs|;
    FoldedStraight(ts, n);
    assert ts[..n] == ts && CF.FoldBlock(ts)[..n] == CF.FoldBlock(ts);
    if n >= 1 {
      FoldedControl(ts, n - 1);
      FoldedStraight(ts, n - 1);
    }
    if n >= 2 {
      FoldedControl(ts, n - 2);
      FoldedStraight(ts, n - 2);
    }
  }

  lemma FoldedClean(ts: seq<Instr>)
    requires AllClean(ts)
    ensures AllClean(CF.FoldBlock(ts))
  {
    hide CF.FoldBlock, ImmediatesInInt;
    CF.EnvStaysInInt(ts, |ts|);
    forall i | 0 <= i < |ts|
      ensures Clean(CF.FoldBlock(ts)[i])
    {
      FoldedControl(ts, i);
    }
  }

  lemma FoldConstantsSound(blocks: Blocks, region: set<string>, roots: seq<string>, owner: map<string, string>)
    requires Sound(blocks, roots, owner)
    ensures Sound(FoldConstantsIn(blocks, region), roots, owner)
  {
    hide Owned, Agrees, AllClean, CF.FoldBlock, Exits;
    var after := FoldConstantsIn(blocks, region);
    SoundClosed(blocks, roots, owner);
    FoldKeepsExits(blocks, region);
    FewerExitsOwned(blocks, after, roots, owner);
    forall l | l in after
      ensures Agrees(after[l]) && AllClean(after[l].instrs)
    {
      FoldedAgrees(blocks[l]);
      FoldedClean(blocks[l].instrs);
    }
  }

  lemma FoldConstantsTidy(blocks: Blocks, region: set<string>, roots: seq<string>, owner: map<string, string>)
    requires Tidy(blocks, roots, owner)
    ensures Tidy(FoldConstantsIn(blocks, region), roots, owner)
  {
    hide Owned, Shaped, AllClean, CF.FoldBlock, Exits, AllRoots;
    var after := FoldConstantsIn(blocks, region);
    SoundClosed(blocks, roots, owner);
    FoldKeepsExits(blocks, region);
    FewerExitsOwned(blocks, after, roots, owner);
    forall l | l in after
      ensures Shaped(after[l]) && CleanBlock(after[l])
    {
      FoldedShaped(blocks[l]);
      FoldedClean(blocks[l].instrs);
    }
  }

  lemma CleanSetsNoThis(blocks: Blocks)
    requires AllTidy(blocks)
    ensures CF.NeverSetsThis(Code(blocks))
  {
    hide Shaped;
    forall l, i | l in blocks && 0 <= i < |blocks[l].instrs| && Defines(blocks[l].instrs[i])
      ensures blocks[l].instrs[i].result != "this"
    {
      assert CleanBlock(blocks[l]);
      assert Clean(blocks[l].instrs[i]);
    }
  }

  function WithBlocks(p: Ir, blocks: Blocks): Ir {
    p.(code := Code(blocks))
  }

  lemma FoldConstantsSame(p: Ir, blocks: Blocks, region: set<string>)
    requires AllTidy(blocks)
    ensures SameBehaviour(WithBlocks(p, blocks), WithBlocks(p, FoldConstantsIn(blocks, region)))
  {
    hide CF.FoldBlock, Run, Start, CF.NeverSetsThis, Look;
    var q, q' := WithBlocks(p, blocks), WithBlocks(p, FoldConstantsIn(blocks, region));
    CleanSetsNoThis(blocks);
    FoldedIn(blocks, region);
    assert q' == CF.WithCode(q, q'.code);
    StartSame(q, q'.code);
    hide FoldConstantsIn, AllTidy, Code;
    forall n: nat
      ensures Run(q', n, Start(q')) == Run(q, n, Start(q))
    {
      CF.FoldingPreservesProgram(q, q'.code, n);
    }
  }

  lemma FoldedIn(blocks: Blocks, region: set<string>)
    ensures CF.FoldedCode(Code(blocks), Code(FoldConstantsIn(blocks, region)))
  {
    hide CF.FoldBlock;
  }

  lemma StartSame(p: Ir, code: map<string, seq<Instr>>)
    ensures Start(p.(code := code)) == Start(p)
  {
  }

  // ----- conditional-jump folding -----

  /** On a sound graph the pass simplifies the blocks of the region. */
  lemma FoldJumpsOfIs(blocks: Blocks, root: string)
    requires AllClosedWell(blocks)
    ensures var after := FoldJumpsOf(blocks, root);
            && after.Keys == blocks.Keys
            && (forall l :: l in blocks ==> after[l] == blocks[l] || after[l] == JF.Simplified(blocks[l]))
            && forall l :: l in Reach(blocks, root) ==> l in blocks && after[l] == JF.Simplified(blocks[l])
  {
    hide Reachable, JF.FoldJumps, JF.Simplified, Agrees, AllClean;
    forall l | l in Reach(blocks, root)
      ensures l in blocks && FoldJumpsOf(blocks, root)[l] == JF.Simplified(blocks[l])
    {
      JF.FoldJumpsSimplifies(blocks[l], Reach(blocks, root));
    }
  }

  lemma SimplifiedClean(b: BBlock)
    requires AllClean(b.instrs)
    ensures AllClean(JF.Simplified(b).instrs)
  {
  }

  lemma FoldJumpsOfSound(blocks: Blocks, root: string, roots: seq<string>, owner: map<string, string>)
    requires Sound(blocks, roots, owner)
    ensures Sound(FoldJumpsOf(blocks, root), roots, owner)
    ensures forall l :: l in blocks ==> Exits(FoldJumpsOf(blocks, root)[l]) <= Exits(blocks[l])
  {
    hide Agrees, Owned, JF.Simplified, AllClean, Exits, FoldJumpsOf;
    var after := FoldJumpsOf(blocks, root);
    FoldJumpsOfIs(blocks, root);
    forall l | l in blocks
      ensures Agrees(after[l]) && AllClean(after[l].instrs) && Exits(after[l]) <= Exits(blocks[l])
    {
      JF.SimplifiedAgrees(blocks[l]);
      SimplifiedClean(blocks[l]);
    }
    FewerExitsOwned(blocks, after, roots, owner);
  }

  /** What the pass does to one block of any graph. */
  ghost predicate Shortened(b: BBlock, r: BBlock, names: set<string>) {
    || r == b
    || (&& JF.HasConstantBranch(b.instrs) && r.instrs == JF.SimplifiedCode(b.instrs) && r.trueExit.To? && r.falseExit == None
        && (r.trueExit.name in Exits(b) || (r.trueExit.name == JF.ChosenTarget(b.instrs) && r.trueExit.name in names)))
  }

  lemma FoldJumpsOfShortens(blocks: Blocks, root: string)
    requires AllTidy(blocks)
    ensures var after := FoldJumpsOf(blocks, root);
            && after.Keys == blocks.Keys
            && (forall l :: l in blocks && l !in Reach(blocks, root) ==> after[l] == blocks[l])
            && forall l :: l in Reach(blocks, root) ==> l in blocks && Shortened(blocks[l], after[l], Reach(blocks, root))
  {
    hide Reachable, JF.FoldJumps, JF.SimplifiedCode, JF.HasConstantBranch, CleanBlock, Shaped;
    forall l | l in Reach(blocks, root)
      ensures l in blocks && Shortened(blocks[l], FoldJumpsOf(blocks, root)[l], Reach(blocks, root))
    {
      JF.FoldJumpsShaped(blocks[l], Reach(blocks, root));
    }
  }

  lemma ShortenedTidy(b: BBlock, r: BBlock, names: set<string>)
    requires Shortened(b, r, names) && Shaped(b) && CleanBlock(b)
    ensures Shaped(r) && CleanBlock(r)
    ensures JF.WellEnded(b.instrs) && (r.instrs == b.instrs || r.instrs == JF.SimplifiedCode(b.instrs))
    ensures forall x :: x in Exits(r) ==> x in Exits(b) || (x in names && !Source.IsRoot(x))
  {
    if r != b {
      JF.SimplifiedShape(b, r);
      var t := b.instrs[|b.instrs| - if b.instrs[|b.instrs| - 2].cond.n == 0 then 2 else 1];
      assert Clean(t) && t.target == JF.ChosenTarget(b.instrs);
      forall i | 0 <= i < |r.instrs|
        ensures Clean(r.instrs[i])
      {
        if i < |r.instrs| - 1 { assert r.instrs[i] == b.instrs[i]; }
      }
    }
  }

  lemma FoldJumpsOfTidy(blocks: Blocks, root: string, roots: seq<string>, owner: map<string, string>)
    requires Tidy(blocks, roots, owner) && root in roots
    ensures Tidy(FoldJumpsOf(blocks, root), roots, owner) && FoldJumpsOf(blocks, root).Keys == blocks.Keys
    ensures JF.SimplifiedIn(Code(blocks), Code(FoldJumpsOf(blocks, root)))
  {
    hide Owned, AllRoots, Shaped, CleanBlock, Shortened, FoldJumpsOf, JF.SimplifiedCode, JF.WellEnded, Reach, Exits;
    var after, names := FoldJumpsOf(blocks, root), Reach(blocks, root);
    FoldJumpsOfShortens(blocks, root);
    forall l | l in blocks
      ensures Shaped(after[l]) && CleanBlock(after[l])
      ensures JF.WellEnded(blocks[l].instrs) && (after[l].instrs == blocks[l].instrs || after[l].instrs == JF.SimplifiedCode(blocks[l].instrs))
      ensures forall x :: x in Exits(after[l]) ==> x in Exits(blocks[l]) || (l in names && x in names && !Source.IsRoot(x))
    {
      if l in names { ShortenedTidy(blocks[l], after[l], names); } else { ShortenedTidy(blocks[l], after[l], {}) by { Unshortened(blocks[l]); } }
    }
    SameMethodOwned(blocks, after, names, root, roots, owner);
  }

  lemma Unshortened(b: BBlock)
    ensures Shortened(b, b, {})
  {
  }

  /** New exits inside the region of a root stay in its method. */
  lemma SameMethodOwned(blocks: Blocks, after: Blocks, names: set<string>, root: string, roots: seq<string>, owner: map<string, string>)
    requires Owned(blocks, roots, owner) && AllRoots(roots) && after.Keys == blocks.Keys && root in roots && names == Reach(blocks, root)
    requires forall l, x :: l in blocks && x in Exits(after[l]) ==> x in Exits(blocks[l]) || (l in names && x in names && !Source.IsRoot(x))
    ensures Owned(after, roots, owner)
  {
    hide Reach, Exits;
    OwnedReach(blocks, roots, owner, root);
    ReachInside(blocks, root);
    forall l, x | l in after && x in Exits(after[l])
      ensures x in after && owner[x] == owner[l] && x !in roots
    {
      assert x in Exits(blocks[l]) || (l in names && x in names && !Source.IsRoot(x));
    }
  }

  lemma OwnedReach(blocks: Blocks, roots: seq<string>, owner: map<string, string>, r: string)
    requires Owned(blocks, roots, owner) && r in roots
    ensures forall x :: x in Reach(blocks, r) ==> x in owner && owner[x] == r
  {
    var mine := set x | x in blocks && owner[x] == r;
    forall l | l in mine
      ensures l in blocks && Exits(blocks[l]) <= mine
    {
      forall x | x in Exits(blocks[l])
        ensures x in mine
      {
        assert owner[x] == owner[l];
      }
    }
    ReachLeast(blocks, r, mine);
  }

  lemma FoldJumpsOfSame(p: Ir, blocks: Blocks, root: string, roots: seq<string>, owner: map<string, string>)
    requires Tidy(blocks, roots, owner) && root in roots
    ensures SameBehaviour(WithBlocks(p, blocks), WithBlocks(p, FoldJumpsOf(blocks, root)))
  {
    hide Run, Start, Look, FoldJumpsOf, JF.Same, JF.Simplified, Tidy, JF.WellEnded, JF.SimplifiedIn, JF.SimplifiedCode;
    var q, q' := WithBlocks(p, blocks), WithBlocks(p, FoldJumpsOf(blocks, root));
    FoldJumpsOfTidy(blocks, root, roots, owner);
    StartSame(q, q'.code);
    StartsTheSame(q, q');
    forall n: nat
      ensures Shows(q', Look(Run(q, n, Start(q))))
    {
      var m := JF.JumpFoldingPreservesRuns(q, q', n, Start(q), Start(q'));
      SameLooks(q.code, q'.code, Run(q, n, Start(q)), Run(q', m, Start(q')));
    }
    forall m: nat
      ensures Shows(q, Look(Run(q', m, Start(q'))))
    {
      var n := JF.JumpFoldingAddsNoRuns(q, q', m, Start(q), Start(q'));
      SameLooks(q.code, q'.code, Run(q, n, Start(q)), Run(q', m, Start(q')));
    }
  }

  lemma StartsTheSame(q: Ir, q': Ir)
    requires JF.SimplifiedIn(q.code, q'.code) && Start(q) == Start(q')
    ensures JF.Same(q.code, q'.code, Start(q), Start(q'))
  {
  }

  lemma SameLooks(code: map<string, seq<Instr>>, code': map<string, seq<Instr>>, c: Config, d: Config)
    requires JF.Same(code, code', c, d)
    ensures Look(c) == Look(d)
  {
  }

  lemma {:induction false} FoldJumpsOfAllSound(blocks: Blocks, rs: seq<string>, roots: seq<string>, owner: map<string, string>)
    requires Sound(blocks, roots, owner)
    ensures Sound(FoldJumpsOfAll(blocks, rs), roots, owner)
    ensures FoldJumpsOfAll(blocks, rs).Keys == blocks.Keys
    ensures forall l :: l in blocks ==> Exits(FoldJumpsOfAll(blocks, rs)[l]) <= Exits(blocks[l])
  {
    hide Owned, FoldJumpsOf, AllClosedWell, Exits;
    if rs != [] {
      var before := FoldJumpsOfAll(blocks, rs[..|rs| - 1]);
      FoldJumpsOfAllSound(blocks, rs[..|rs| - 1], roots, owner);
      FoldJumpsOfSound(before, rs[|rs| - 1], roots, owner);
      FoldJumpsOfIs(before, rs[|rs| - 1]);
    }
  }

  lemma {:induction false} FoldJumpsOfAllSame(p: Ir, blocks: Blocks, rs: seq<string>, roots: seq<string>, owner: map<string, string>)
    requires Tidy(blocks, roots, owner) && forall r :: r in rs ==> r in roots
    ensures Tidy(FoldJumpsOfAll(blocks, rs), roots, owner) && FoldJumpsOfAll(blocks, rs).Keys == blocks.Keys
    ensures SameBehaviour(WithBlocks(p, blocks), WithBlocks(p, FoldJumpsOfAll(blocks, rs)))
  {
    hide Tidy, FoldJumpsOf, Shows;
    if rs != [] {
      var before, r := FoldJumpsOfAll(blocks, rs[..|rs| - 1]), rs[|rs| - 1];
      FoldJumpsOfAllSame(p, blocks, rs[..|rs| - 1], roots, owner);
      FoldJumpsOfTidy(before, r, roots, owner);
      FoldJumpsOfSame(p, before, r, roots, owner);
    }
  }

  // ----- any list of passes -----

  /** Optimisation is correct for the graph of any program: after any list of passes the graph is tidy again and the
      code behaves exactly as before. */
  lemma {:induction false} PassesPreserveBehaviour(p: Ir, passes: seq<Pass>, blocks: Blocks, roots: seq<string>, owner: map<string, string>)
    requires Tidy(blocks, roots, owner)
    ensures Tidy(AfterAll(passes, blocks, roots), roots, owner) && AfterAll(passes, blocks, roots).Keys == blocks.Keys
    ensures SameBehaviour(WithBlocks(p, blocks), WithBlocks(p, AfterAll(passes, blocks, roots)))
  {
    hide Owned, AllRoots, AllTidy, Shows, Reached, FoldJumpsOfAll;
    if passes != [] {
      var before, pass := AfterAll(passes[..|passes| - 1], blocks, roots), passes[|passes| - 1];
      PassesPreserveBehaviour(p, passes[..|passes| - 1], blocks, roots, owner);
      match pass
      case ConstantFoldingPass =>
        FoldConstantsTidy(before, Reached(before, roots), roots, owner);
        FoldConstantsSame(p, before, Reached(before, roots));
      case ConditionalJumpFoldingPass =>
        FoldJumpsOfAllSame(p, before, roots, roots, owner);
    }
  }

  /** Where exits agree with labels they still do after any list of passes. */
  lemma {:induction false} PassesKeepAgreement(passes: seq<Pass>, blocks: Blocks, roots: seq<string>, owner: map<string, string>)
    requires Sound(blocks, roots, owner)
    ensures Sound(AfterAll(passes, blocks, roots), roots, owner) && AfterAll(passes, blocks, roots).Keys == blocks.Keys
  {
    hide Owned, AllClosedWell, Reached, FoldJumpsOfAll;
    if passes != [] {
      var before, pass := AfterAll(passes[..|passes| - 1], blocks, roots), passes[|passes| - 1];
      PassesKeepAgreement(passes[..|passes| - 1], blocks, roots, owner);
      match pass
      case ConstantFoldingPass => FoldConstantsSound(before, Reached(before, roots), roots, owner);
      case ConditionalJumpFoldingPass => FoldJumpsOfAllSound(before, roots, roots, owner);
    }
  }

  // ----- what is left after a pass -----

  predicate Branchless(b: BBlock) {
    forall t :: t in b.instrs ==> !JF.ConstantBranch(t)
  }

  ghost predicate BranchlessFrom(blocks: Blocks, root: string) {
    forall l :: l in Reach(blocks, root) ==> l in blocks && Branchless(blocks[l])
  }

  /** After the pass no block that some root leads to branches on a constant. */
  lemma {:induction false} NoConstantBranchLeft(blocks: Blocks, rs: seq<string>, roots: seq<string>, owner: map<string, string>)
    requires Sound(blocks, roots, owner) && forall r :: r in rs ==> r in blocks
    ensures forall r :: r in rs ==> BranchlessFrom(FoldJumpsOfAll(blocks, rs), r)
    ensures forall r :: r in rs ==> Reach(FoldJumpsOfAll(blocks, rs), r) <= Reach(blocks, r)
  {
    hide Owned, FoldJumpsOf, AllClosedWell, Reach, SameBehaviour, JF.Simplified, Branchless, Exits;
    FoldJumpsOfAllSound(blocks, rs, roots, owner);
    SoundClosed(blocks, roots, owner);
    forall r | r in rs
      ensures Reach(FoldJumpsOfAll(blocks, rs), r) <= Reach(blocks, r)
    {
      ReachShrinks(blocks, FoldJumpsOfAll(blocks, rs), r);
    }
    if rs != [] {
      var n := |rs| - 1;
      var before := FoldJumpsOfAll(blocks, rs[..n]);
      FoldJumpsOfAllSound(blocks, rs[..n], roots, owner);
      NoConstantBranchLeft(blocks, rs[..n], roots, owner);
      forall r | r in rs
        ensures BranchlessFrom(FoldJumpsOf(before, rs[n]), r)
      {
        assert rs == rs[..n] + [rs[n]];
        StillBranchless(before, rs[n], r, roots, owner);
      }
    }
  }

  lemma StillBranchless(blocks: Blocks, root: string, r: string, roots: seq<string>, owner: map<string, string>)
    requires Sound(blocks, roots, owner) && r in blocks && (r == root || BranchlessFrom(blocks, r))
    ensures BranchlessFrom(FoldJumpsOf(blocks, root), r)
  {
    hide Owned, FoldJumpsOf, AllClean, Agrees, Reach, JF.Simplified, Branchless, Exits;
    var after := FoldJumpsOf(blocks, root);
    SoundClosed(blocks, roots, owner);
    FoldJumpsOfIs(blocks, root);
    FoldJumpsOfSound(blocks, root, roots, owner);
    ReachShrinks(blocks, after, r);
    forall l | l in Reach(after, r)
      ensures l in after && Branchless(after[l])
    {
      ReachInside(after, r);
      SimplifiedBranchless(blocks[l]);
    }
  }

  lemma SimplifiedBranchless(b: BBlock)
    requires Agrees(b)
    ensures Branchless(JF.Simplified(b))
  {
    JF.SimplifiedAgrees(b);
  }

  /** So a second run of the pass changes nothing, and returns false. */
  lemma SecondJumpFolding(blocks: Blocks, roots: seq<string>, owner: map<string, string>)
    requires Sound(blocks, roots, owner)
    ensures var after := After(ConditionalJumpFoldingPass, blocks, roots);
            After(ConditionalJumpFoldingPass, after, roots) == after && Reached(after, roots) <= Reached(blocks, roots)
  {
    hide Owned, FoldJumpsOf, AllClosedWell, BranchlessFrom, SameBehaviour, Reach;
    SoundClosed(blocks, roots, owner);
    var after := FoldJumpsOfAll(blocks, roots);
    NoConstantBranchLeft(blocks, roots, roots, owner);
    FoldJumpsOfAllSound(blocks, roots, roots, owner);
    NothingLeft(after, roots);
  }

  lemma {:induction false} NothingLeft(blocks: Blocks, rs: seq<string>)
    requires AllClosedWell(blocks) && forall r :: r in rs ==> BranchlessFrom(blocks, r)
    ensures FoldJumpsOfAll(blocks, rs) == blocks
  {
    hide FoldJumpsOf, AllClosedWell, Reach, BranchlessFrom;
    if rs != [] {
      NothingLeft(blocks, rs[..|rs| - 1]);
      NothingToFold(blocks, rs[|rs| - 1]);
    }
  }

  lemma NothingToFold(blocks: Blocks, root: string)
    requires AllClosedWell(blocks) && BranchlessFrom(blocks, root)
    ensures FoldJumpsOf(blocks, root) == blocks
  {
    hide Reach, JF.FoldJumps, Agrees, AllClean;
    forall l | l in blocks
      ensures FoldJumpsOf(blocks, root)[l] == blocks[l]
    {
      if l in Reach(blocks, root) {
        JF.FoldJumpsSimplifies(blocks[l], Reach(blocks, root));
        if JF.HasConstantBranch(blocks[l].instrs) {
          assert blocks[l].instrs[|blocks[l].instrs| - 2] in blocks[l].instrs;
        }
      }
    }
  }

  /** A second run of the constant-folding pass changes nothing either. */
  lemma SecondConstantFolding(blocks: Blocks, roots: seq<string>)
    requires Closed(blocks) && forall r :: r in roots ==> r in blocks
    ensures var after := After(ConstantFoldingPass, blocks, roots);
            After(ConstantFoldingPass, after, roots) == after
  {
    hide FoldConstantsIn, Reach, Exits;
    var region := Reached(blocks, roots);
    var after := FoldConstantsIn(blocks, region);
    FoldKeepsExits(blocks, region);
    forall r | r in roots
      ensures Reach(after, r) == Reach(blocks, r)
    {
      PathSame(blocks, after, r);
    }
    assert Reached(after, roots) == region;
    FoldRegions(blocks, region, region);
    assert region + region == region;
  }
}
