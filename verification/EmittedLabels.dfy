/** Which programs are emitted with dangling labels: exactly those with a short-circuit operator inside the right
    operand of another one, anywhere in main or the methods. */
module EmittedLabels {
  import opened Ast
  import opened Tac
  import opened Bytecode
  import opened FlowGraph
  import opened IrGeneration
  import opened GraphGrowth
  import opened WellFormed
  import opened ProgramGeneration
  import opened ExitTargets
  import opened Reachability
  import opened Emission
  import opened DanglingLabels
  import PC = PassesCorrect
  import Source

  // ----- graphs -----

  /** A block that no exit of the method leads to is not reached from its root. */
  lemma Unreached(blocks: Blocks, h: Graph, base: set<string>, root: string, x: string)
    requires Contained(base, base + {x}, h) && root in h.blocks && root !in base && root != x
    requires forall l :: l in h.blocks ==> l in blocks && blocks[l] == h.blocks[l]
    ensures x !in Reach(blocks, root)
  {
    hide Reach, Exits;
    var region := set l | l in h.blocks && l !in base && l != x;
    forall l | l in region
      ensures l in blocks && Exits(blocks[l]) <= region
    {
      forall y | y in Exits(blocks[l])
        ensures y in region
      {
        assert Target(base + {x}, h, y);
      }
    }
    ReachLeast(blocks, root, region);
  }

  lemma ReachedClosed(blocks: Blocks, root: string)
    requires LabelsReached(blocks, root)
    ensures LabelClosed(Final(blocks, Reach(blocks, root)))
  {
    hide Reach;
  }

  lemma MainNested(p: Program)
    requires Source.GoodProgram(p) && LabelsReached(GenProgram(p).blocks, p.mainName)
    ensures forall s :: s in p.mainBody ==> NoShortCircuitInRightOperandStmt(s)
  {
    hide Contained, Touches, Reach, LabelClosed, Within, NoShortCircuitInRightOperandStmt, Source.GoodStmt, GenStmts, Fresh;
    var blocks := GenProgram(p).blocks;
    var f := Final(blocks, Reach(blocks, p.mainName));
    var g, h := MainStart(p), GenMain(p);
    MainGrows(p);
    UpToKept(p, 0, |p.order|);
    KeptWithin(h, GenProgram(p), f);
    RootStays(g, h);
    ReachRoot(blocks, p.mainName);
    ReachedClosed(blocks, p.mainName);
    RootInside(EMPTY_GRAPH, p.mainName, p.mainSig.locals);
    assert EMPTY_GRAPH.blocks.Keys == {};
    StartTrackedAt(f, g);
    var x := StmtsHits(f, {}, {}, p, p.mainBody, g);
    if exists s :: s in p.mainBody && !NoShortCircuitInRightOperandStmt(s) {
      NoHit(f, blocks, {}, g, h, p.mainName, x);
    }
  }

  lemma KeptWithin(g: Graph, h: Graph, f: Final)
    requires Keeps(g, h) && f.blocks == h.blocks
    ensures Within(g, f) && forall l :: l in g.blocks ==> l in f.blocks && f.blocks[l] == g.blocks[l]
  {
  }

  lemma RootStays(g: Graph, h: Graph)
    requires Grows(g, h) && Ready(g)
    ensures g.current in h.blocks
  {
  }

  lemma StartTrackedAt(f: Final, g: Graph)
    requires Ready(g) && Here(g) == EMPTY_BLOCK && g.current in f.region
    ensures Tracked(f, g)
  {
  }

  /** A block that is hit is reached, which one that no exit leads to is not. */
  lemma NoHit(f: Final, blocks: Blocks, base: set<string>, g: Graph, h: Graph, root: string, x: string)
    requires f == Final(blocks, Reach(blocks, root))
    requires root in g.blocks && root in h.blocks && root !in base
    requires forall l :: l in h.blocks ==> l in blocks && blocks[l] == h.blocks[l]
    ensures !Hit(f, base, base, g, h, x)
  {
    hide Contained, Reach;
    if Contained(base, base + {x}, h) && root != x { Unreached(blocks, h, base, root, x); }
  }

  /** A method's body and result. */
  lemma BodyHits(f: Final, base: set<string>, p: Program, m: Method, g: Graph) returns (x: string)
    requires (forall s :: s in m.body ==> Source.GoodStmt(p, s)) && Source.GoodExpr(p, m.result)
    requires LabelClosed(f) && Tracked(f, g) && Contained(base, base, g) && Within(GenBody(m, g), f)
    ensures !NoShortCircuitInBody(m) ==> Hit(f, base, base, g, GenBody(m, g), x)
  {
    hide Contained, Touches, Tracked, Avoids, Within, LabelClosed, Fresh, GenStmt, GenExpr, AddInstr, NoShortCircuitInRightOperand, NoShortCircuitInRightOperandStmt,
      Source.GoodStmt, Source.GoodExpr;
    TrackedReady(f, g);
    var g1 := GenStmts(m.body, g);
    StmtsGrow(m.body, g);
    StmtsInside(base, base, p, m.body, g);
    var (g2, r) := GenExpr(m.result, g1);
    ExprGrows(m.result, g1);
    ExprInside(base, base, p, m.result, g1);
    AddInstrTouches(g2, Return(r));
    WithinLess(g2, AddInstr(g2, Return(r)), {g2.current}, f);
    WithinLess(g1, g2, {g1.current}, f);
    var x1 := StmtsHits(f, base, base, p, m.body, g);
    x := ExprHits(f, base, base, p, m.result, g1);
    if exists s :: s in m.body && !NoShortCircuitInRightOperandStmt(s) {
      x := x1;
      AvoidsExpr(base, base, g, g1, x, p, m.result);
      AvoidsAdd(base, base, g, g2, x, Return(r));
    } else if !NoShortCircuitInRightOperand(m.result) {
      AvoidsFrom(base, base, g, g1, g2, {g.current}, x);
      AvoidsAdd(base, base, g, g2, x, Return(r));
    }
  }

  lemma MethodNested(p: Program, i: nat)
    requires Source.GoodProgram(p) && i < |p.order| && LabelsReached(GenProgram(p).blocks, p.order[i])
    ensures p.order[i] in p.methods && NoShortCircuitInBody(p.methods[p.order[i]])
  {
    hide Contained, Touches, Reach, LabelClosed, Within, Source.GoodStmt, Source.GoodExpr, GenBody, Fresh, GenUpTo, Accounted, Keeps, NoShortCircuitInBody;
    var name := p.order[i];
    var blocks := GenProgram(p).blocks;
    var f := Final(blocks, Reach(blocks, name));
    UpToGrows(p, i);
    UpToGrows(p, i + 1);
    UpToKept(p, i + 1, |p.order|);
    var g0, h, m := GenUpTo(p, i), GenUpTo(p, i + 1), p.methods[name];
    var g := AddRoot(g0, name, m.sig.locals);
    RootIsNew(p, g0, i);
    KeptWithin(h, GenProgram(p), f);
    RootStays(g, h);
    ReachRoot(blocks, name);
    ReachedClosed(blocks, name);
    RootInside(g0, name, m.sig.locals);
    StartTrackedAt(f, g);
    var x := BodyHits(f, g0.blocks.Keys, p, m, g);
    if !NoShortCircuitInBody(m) { NoHit(f, blocks, g0.blocks.Keys, g, h, name, x); }
  }

  lemma LabelIsExit(b: BBlock, i: nat)
    requires Agrees(b) && i < |b.instrs|
    ensures b.instrs[i].Jump? || b.instrs[i].CondJump? ==> b.instrs[i].target in Exits(b)
  {
    var ts, n := b.instrs, |b.instrs|;
    if EndsInBranch(ts) {
      if i < n - 2 { assert ts[i] == ts[..n - 2][i]; }
    } else if EndsInJump(ts) || EndsInReturn(ts) {
      if i < n - 1 { assert ts[i] == ts[..n - 1][i]; }
    }
  }

  /** When exits agree with labels, the labels of reached blocks are reached. */
  lemma AgreeingReached(blocks: Blocks, root: string)
    requires Closed(blocks) && forall l :: l in blocks ==> Agrees(blocks[l])
    ensures LabelsReached(blocks, root)
  {
    hide Agrees, Reach, Exits;
    ReachInside(blocks, root);
    forall l | l in Reach(blocks, root)
      ensures LabelsOf(blocks[l].instrs) <= Reach(blocks, root)
    {
      forall x | x in LabelsOf(blocks[l].instrs)
        ensures x in Reach(blocks, root)
      {
        var t :| t in blocks[l].instrs && x in Labels(t);
        var i :| 0 <= i < |blocks[l].instrs| && blocks[l].instrs[i] == t;
        LabelIsExit(blocks[l], i);
        ReachStep(blocks, root, l, x);
      }
    }
  }

  /** In the generated graph, labels lead only where exits lead if and only if no short circuit is nested in a right
      operand. */
  lemma LabelsReachedExactly(p: Program)
    requires Source.GoodProgram(p)
    ensures AllLabelsReached(GenProgram(p).blocks, GenProgram(p).roots) <==> NoShortCircuitUpTo(p, |p.order|)
  {
    hide Source.GoodProgram, Contained, Reach, LabelsReached, NoShortCircuitInBody, NoShortCircuitInRightOperandStmt, Agrees, Owned, BlocksClean, GenUpTo;
    var n, blocks, roots := |p.order|, GenProgram(p).blocks, GenProgram(p).roots;
    ProgramOwned(p, n);
    ProgramAgrees(p, n);
    PC.SoundClosed(blocks, roots, OwnersUpTo(p, n));
    assert p.order[..n] == p.order;
    if AllLabelsReached(blocks, roots) {
      assert p.mainName in roots;
      MainNested(p);
      forall i | 0 <= i < n && p.order[i] in p.methods
        ensures NoShortCircuitInBody(p.methods[p.order[i]])
      {
        assert p.order[i] in roots;
        MethodNested(p, i);
      }
    }
    if NoShortCircuitUpTo(p, n) {
      forall r | r in roots
        ensures LabelsReached(blocks, r)
      {
        AgreeingReached(blocks, r);
      }
    }
  }

  // ----- emitted code -----

  predicate IsJump(i: Instruction) {
    i.JMP? || i.CJMP?
  }

  /** Every label in the code of a method names a block that is emitted with it. */
  ghost predicate LabelsNamed(code: CodeMap) {
    forall l, j {:trigger code[l][j]} :: l in code && 0 <= j < |code[l]| && IsJump(code[l][j]) ==> code[l][j].target in code
  }

  ghost predicate AllLabelsNamed(ms: seq<MethodCode>) {
    forall i {:trigger ms[i]} :: 0 <= i < |ms| ==> LabelsNamed(AsMap(ms[i].blocks))
  }

  /** Only jumps are lowered to jumps, with the same label. */
  lemma {:induction false} LoweredJump(ts: seq<Instr>, j: nat) returns (n: nat)
    requires j < |LowerAll(ts)| && IsJump(LowerAll(ts)[j])
    ensures n < |ts| && LowerAll(ts)[j].target in Labels(ts[n])
    decreases |ts|
  {
    var last := |ts| - 1;
    var before := LowerAll(ts[..last]);
    if j < |before| {
      n := LoweredJump(ts[..last], j);
    } else {
      assert LowerAll(ts)[j] == Lower(ts[last])[j - |before|];
      n := last;
    }
  }

  /** And each of them is. */
  lemma {:induction false} JumpLowered(ts: seq<Instr>, n: nat, x: string) returns (j: nat)
    requires n < |ts| && x in Labels(ts[n])
    ensures j < |LowerAll(ts)| && IsJump(LowerAll(ts)[j]) && LowerAll(ts)[j].target == x
  {
    hide LowerAll;
    LowerAllAt(ts, n);
    JumpLast(ts[n], x);
    hide Lower;
    var code := Lower(ts[n]);
    j := |LowerAll(ts[..n])| + |code| - 1;
    assert (LowerAll(ts[..n]) + code)[j] == code[|code| - 1];
  }

  lemma JumpLast(t: Instr, x: string)
    requires x in Labels(t)
    ensures var code := Lower(t); code != [] && IsJump(code[|code| - 1]) && code[|code| - 1].target == x
  {
  }

  lemma PrologueJumpless(isMain: bool, params: seq<string>)
    ensures forall i :: i in Prologue(isMain, params) ==> !IsJump(i)
  {
  }

  lemma MethodLabels(m: MethodCode, blocks: Blocks, isMain: bool, root: string, scope: Scope)
    requires EmittedMethod(m, blocks, isMain, root, scope)
    ensures LabelsNamed(AsMap(m.blocks)) <==> LabelsReached(blocks, root)
  {
    hide AsMap, Reach, LowerAll, Prologue;
    var code := AsMap(m.blocks);
    PrologueJumpless(isMain, scope.params);
    if LabelsReached(blocks, root) {
      forall l, j | l in code && 0 <= j < |code[l]| && IsJump(code[l][j])
        ensures code[l][j].target in code
      {
        EmittedJump(blocks, isMain, root, scope.params, l, j);
      }
    }
    if LabelsNamed(code) {
      forall l | l in Reach(blocks, root)
        ensures l in blocks && LabelsOf(blocks[l].instrs) <= Reach(blocks, root)
      {
        assert l in code;
        forall x | x in LabelsOf(blocks[l].instrs)
          ensures x in code
        {
          var j := JumpEmitted(blocks, isMain, root, scope.params, l, x);
          assert code[l][j].target == x;
        }
      }
    }
  }

  lemma EmittedJump(blocks: Blocks, isMain: bool, root: string, params: seq<string>, l: string, j: nat)
    requires l in blocks && j < |ExpectedCode(blocks, isMain, root, params, l)| && IsJump(ExpectedCode(blocks, isMain, root, params, l)[j])
    ensures ExpectedCode(blocks, isMain, root, params, l)[j].target in LabelsOf(blocks[l].instrs)
  {
    hide LowerAll, Prologue;
    PrologueJumpless(isMain, params);
    var front := if l == root then Prologue(isMain, params) else [];
    var code, ts := ExpectedCode(blocks, isMain, root, params, l), blocks[l].instrs;
    assert forall k :: 0 <= k < |front| ==> code[k] == front[k] && front[k] in front;
    assert code[j] == LowerAll(ts)[j - |front|];
    var n := LoweredJump(ts, j - |front|);
    assert ts[n] in ts;
  }

  lemma JumpEmitted(blocks: Blocks, isMain: bool, root: string, params: seq<string>, l: string, x: string) returns (j: nat)
    requires l in blocks && x in LabelsOf(blocks[l].instrs)
    ensures var code := ExpectedCode(blocks, isMain, root, params, l);
            j < |code| && IsJump(code[j]) && code[j].target == x
  {
    hide LowerAll, Prologue;
    var front := if l == root then Prologue(isMain, params) else [];
    var ts := blocks[l].instrs;
    var t :| t in ts && x in Labels(t);
    var n :| 0 <= n < |ts| && ts[n] == t;
    j := JumpLowered(ts, n, x);
    assert ExpectedCode(blocks, isMain, root, params, l)[|front| + j] == LowerAll(ts)[j];
    j := |front| + j;
  }

  /** For any graph: emitted labels name emitted blocks if and only if labels lead only where exits lead. */
  lemma LabelsNamedExactly(ms: seq<MethodCode>, blocks: Blocks, roots: seq<string>, scopes: map<string, Scope>)
    requires Emitted(ms, blocks, roots, scopes)
    ensures AllLabelsNamed(ms) <==> AllLabelsReached(blocks, roots)
  {
    hide LabelsNamed, LabelsReached, EmittedMethod;
    forall i | 0 <= i < |ms|
      ensures LabelsNamed(AsMap(ms[i].blocks)) <==> LabelsReached(blocks, roots[i])
    {
      assert EmittedMethod(ms[i], blocks, i == 0, roots[i], scopes[roots[i]]);
      MethodLabels(ms[i], blocks, i == 0, roots[i], scopes[roots[i]]);
    }
    if AllLabelsNamed(ms) {
      forall r | r in roots
        ensures LabelsReached(blocks, r)
      {
        var i :| 0 <= i < |roots| && roots[i] == r;
        assert LabelsNamed(AsMap(ms[i].blocks));
      }
    }
    if AllLabelsReached(blocks, roots) {
      forall i | 0 <= i < |ms|
        ensures LabelsNamed(AsMap(ms[i].blocks))
      {
        assert roots[i] in roots;
      }
    }
  }

  /** The exact condition: in the code emitted for a generated program every label names an emitted block if and only if
      no right operand of a short-circuit operator contains another one. */
  lemma ProgramLabelsExactly(p: Program, ms: seq<MethodCode>, scopes: map<string, Scope>)
    requires Source.GoodProgram(p) && Emitted(ms, GenProgram(p).blocks, GenProgram(p).roots, scopes)
    ensures AllLabelsNamed(ms) <==> NoShortCircuitUpTo(p, |p.order|)
  {
    hide Source.GoodProgram, GenUpTo, AllLabelsNamed, AllLabelsReached, NoShortCircuitUpTo, Emitted;
    LabelsNamedExactly(ms, GenProgram(p).blocks, GenProgram(p).roots, scopes);
    LabelsReachedExactly(p);
  }

  /** Whatever passes have run over a well-formed graph, all emitted labels are named. */
  lemma SoundLabelsNamed(ms: seq<MethodCode>, blocks: Blocks, roots: seq<string>, scopes: map<string, Scope>, owner: map<string, string>)
    requires PC.Sound(blocks, roots, owner) && Emitted(ms, blocks, roots, scopes)
    ensures AllLabelsNamed(ms)
  {
    hide AllLabelsNamed, LabelsReached, Emitted, Agrees, Owned, AllClean;
    PC.SoundClosed(blocks, roots, owner);
    forall r | r in roots
      ensures LabelsReached(blocks, r)
    {
      AgreeingReached(blocks, r);
    }
    LabelsNamedExactly(ms, blocks, roots, scopes);
  }
}
