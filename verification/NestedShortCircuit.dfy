/** What goes wrong when a short-circuit operator stands in the right operand of another: the smallest programs
    of that kind, `print(true && (true && true))` and `print(false && (true && true))`. The code of the right operand
    jumps to a block that no exit leads to, so the block is never emitted. The first program makes the VM fail, although
    the source prints 1; with the compiler's two passes it fails as well. The second one is emitted with a dangling label
    too when no pass runs, but the compiler's passes remove the right operand, and it runs correctly. */
module NestedShortCircuit {
  import opened Ast
  import opened Tac
  import opened Names
  import opened Machine
  import opened Bytecode
  import opened FlowGraph
  import opened IrGeneration
  import opened GraphGrowth
  import opened ProgramGeneration
  import opened WellFormed
  import opened Reachability
  import opened Passes
  import opened Emission
  import opened EmittedLabels
  import opened Loading
  import opened LoweringSteps
  import opened Pipeline
  import CF = ConstantFolding
  import ExitTargets
  import I = IrMachine
  import JF = JumpFolding
  import Source
  import Vm

  const TRUE := BoolLit(true)
  const MAIN := "M.main"

  /** What the compiler runs (src/main.cpp:316-319). */
  const PASSES := [ConstantFoldingPass, ConditionalJumpFoldingPass]

  function Nested(first: bool): Program {
    Program(MAIN, Signature([], {}, {}), [Print(And(BoolLit(first), And(TRUE, TRUE)))], [], map[])
  }

  function Bit(first: bool): int {
    if first then 1 else 0
  }

  lemma NestedIsGood(first: bool)
    ensures Source.GoodProgram(Nested(first)) && !ExitTargets.NoShortCircuitUpTo(Nested(first), 0)
  {
    var p, t := Nested(first), Print(And(BoolLit(first), And(TRUE, TRUE)));
    assert MAIN[1] == '.';
    assert Source.GoodExpr(p, BoolLit(first)) && Source.GoodExpr(p, TRUE) && Source.GoodExpr(p, And(TRUE, TRUE));
    assert Source.GoodStmt(p, t);
    assert p.mainBody[0] == t && t in p.mainBody;
  }

  lemma SourcePrints(first: bool)
    ensures Source.Run(Nested(first), 0).Done? && Source.Run(Nested(first), 0).store.out == [Bit(first)]
  {
    var p := Nested(first);
    var fr, s := FreshFrame(p.mainSig), Source.EMPTY_STORE;
    assert Source.Eval(p, 0, TRUE, fr, s) == Source.Done(Source.Now(1), s);
    assert Source.Eval(p, 0, BoolLit(first), fr, s) == Source.Done(Source.Now(Bit(first)), s);
    assert Source.Eval(p, 0, And(TRUE, TRUE), fr, s) == Source.Done(Source.Now(1), s);
    assert Source.Eval(p, 0, And(BoolLit(first), And(TRUE, TRUE)), fr, s) == Source.Done(Source.Now(Bit(first)), s);
    var t := Print(And(BoolLit(first), And(TRUE, TRUE)));
    var s1 := s.(out := s.out + [Bit(first)]);
    assert Source.Exec(p, 0, t, fr, s) == Source.Done(fr, s1);
    assert p.mainBody == [t] && [t][1..] == [];
    assert Source.ExecAll(p, 0, [], fr, s1) == Source.Done(fr, s1);
  }

  // ----- the generated graph -----

  /** The stages of its generation: at the start, after the left operands of both operators, and after the right
      ones; outer and inner are their blocks. */
  datatype Stages = Stages(g0: Graph, g1: Graph, outer: Arms, g2: Graph, inner: Arms, g3: Graph, g4: Graph, last: Graph)

  function StagesOf(first: bool): Stages {
    var g0 := AddRoot(EMPTY_GRAPH, MAIN, {});
    var (g1, outer) := OpenShortCircuit(g0, true, Imm(Bit(first)));
    var (g2, inner) := OpenShortCircuit(g1, true, Imm(1));
    var g3 := CloseShortCircuit(g2, Imm(1), inner);
    var g4 := CloseShortCircuit(g3, Name(inner.result), outer);
    Stages(g0, g1, outer, g2, inner, g3, g4, AddInstr(g4, PrintTac(Name(outer.result))))
  }

  lemma StagesLast(first: bool)
    ensures GenProgram(Nested(first)) == StagesOf(first).last
  {
    hide OpenShortCircuit, CloseShortCircuit, AddInstr;
    var v := StagesOf(first);
    assert GenExpr(BoolLit(first), v.g0) == (v.g0, Imm(Bit(first))) && GenExpr(TRUE, v.g1) == (v.g1, Imm(1)) && GenExpr(TRUE, v.g2) == (v.g2, Imm(1));
    assert GenExpr(And(TRUE, TRUE), v.g1) == (v.g3, Name(v.inner.result));
    assert GenExpr(And(BoolLit(first), And(TRUE, TRUE)), v.g0) == (v.g4, Name(v.outer.result));
    var t := Print(And(BoolLit(first), And(TRUE, TRUE)));
    assert GenStmt(t, v.g0) == v.last;
    assert Nested(first).mainBody == [t] && [t][1..] == [];
    assert GenStmts([], v.last) == v.last;
  }

  /** The main block and the four outer blocks, which is all that exits lead to. */
  function Region(outer: Arms): set<string> {
    {MAIN, outer.rhs, outer.yes, outer.no, outer.join}
  }

  predicate Apart(o: Arms) {
    MAIN !in {o.rhs, o.yes, o.no, o.join} && o.rhs !in {o.yes, o.no, o.join} && o.yes !in {o.no, o.join} && o.no != o.join
  }

  /** The code of the outer right operand jumps to the inner blocks, but its exits are the outer ones. */
  ghost predicate Broken(b: Blocks, first: bool, outer: Arms, inner: Arms) {
    && Region(outer) <= b.Keys && inner.rhs !in Region(outer) && Apart(outer)
    && b[MAIN] == BBlock([CondJump(outer.no, Imm(Bit(first))), Jump(outer.rhs)], To(outer.rhs), To(outer.no))
    && b[outer.rhs] == BBlock([CondJump(inner.no, Imm(1)), Jump(inner.rhs)], To(outer.yes), To(outer.no))
    && b[outer.yes] == ResultBlock(1, outer) && b[outer.no] == ResultBlock(0, outer)
    && b[outer.join] == BBlock([PrintTac(Name(outer.result))], None, None)
  }

  lemma FirstStages(first: bool, v: Stages)
    requires v == StagesOf(first)
    ensures Ready(v.g0) && MAIN in v.g0.blocks && v.g0.current == MAIN
    ensures Opened(v.g0, v.g1, v.outer) && v.g1.blocks[MAIN] == LeftBranch(EMPTY_BLOCK, true, Imm(Bit(first)), v.outer)
    ensures Opened(v.g1, v.g2, v.inner) && v.g2.blocks[v.outer.rhs] == LeftBranch(EMPTY_BLOCK, true, Imm(1), v.inner)
  {
    hide OpenShortCircuit, CloseShortCircuit, AddInstr, LeftBranch;
    assert Fresh(EMPTY_GRAPH);
    assert MAIN[1] == '.';
    AddRootReady(EMPTY_GRAPH, MAIN, {});
    OpenTouches(v.g0, true, Imm(Bit(first)));
    OpenTouches(v.g1, true, Imm(1));
  }

  lemma LastStages(first: bool, v: Stages)
    requires v == StagesOf(first)
    ensures Touches(v.g1, v.g3, {v.outer.rhs}) && v.g3.current == v.inner.join && v.g3.blocks[v.outer.rhs] == v.g2.blocks[v.outer.rhs]
    ensures Grows(v.g1, v.g3)
  {
    hide OpenShortCircuit, CloseShortCircuit, AddInstr, LeftBranch, Fresh, CloseRight;
    FirstStages(first, v);
    ReadyGrows(v.g2);
    CloseTouches(v.g2, v.g2, Imm(1), v.inner);
    TouchesTrans(v.g1, v.g2, v.g3, {v.g1.current}, {v.inner.rhs, v.inner.yes, v.inner.no});
    TouchesLess(v.g1, v.g3, {v.g1.current} + {v.inner.rhs, v.inner.yes, v.inner.no}, {v.outer.rhs});
  }

  lemma ReadyGrows(g: Graph)
    requires Ready(g)
    ensures Grows(g, g)
  {
    GrowsRefl(g);
  }

  lemma OuterClosed(first: bool, v: Stages)
    requires v == StagesOf(first)
    ensures Touches(v.g1, v.g4, {v.outer.rhs, v.outer.yes, v.outer.no}) && v.g4.current == v.outer.join && v.outer.rhs in v.g4.blocks
    ensures v.outer.yes in v.g4.blocks && v.g4.blocks[v.outer.yes] == ResultBlock(1, v.outer)
    ensures v.outer.no in v.g4.blocks && v.g4.blocks[v.outer.no] == ResultBlock(0, v.outer)
    ensures v.outer.join in v.g4.blocks && v.g4.blocks[v.outer.join] == EMPTY_BLOCK
    ensures v.g4.blocks[v.outer.rhs] == v.g2.blocks[v.outer.rhs].(trueExit := To(v.outer.yes), falseExit := To(v.outer.no))
  {
    hide OpenShortCircuit, CloseShortCircuit, Fresh, LeftBranch, CloseRight;
    FirstStages(first, v);
    LastStages(first, v);
    CloseTouches(v.g1, v.g3, Name(v.inner.result), v.outer);
  }

  /** The generated graph. */
  lemma ExitsBroken(first: bool)
    ensures var v := StagesOf(first);
            GenProgram(Nested(first)).blocks == v.last.blocks && Broken(v.last.blocks, first, v.outer, v.inner)
    ensures GenProgram(Nested(first)).roots == [MAIN]
  {
    hide OpenShortCircuit, CloseShortCircuit, Fresh;
    var v := StagesOf(first);
    StagesLast(first);
    FirstStages(first, v);
    OuterClosed(first, v);
    NestedIsGood(first);
    ExitTargets.ProgramOwned(Nested(first), 0);
    assert [MAIN] + Nested(first).order[..0] == [MAIN];
    hide StagesOf, Touches;
    BrokenFrom(first, v);
  }

  lemma BrokenFrom(first: bool, v: Stages)
    requires MAIN in v.g0.blocks && v.g0.current == MAIN && Opened(v.g0, v.g1, v.outer) && Opened(v.g1, v.g2, v.inner)
    requires v.g1.blocks[MAIN] == LeftBranch(EMPTY_BLOCK, true, Imm(Bit(first)), v.outer)
    requires v.g2.blocks[v.outer.rhs] == LeftBranch(EMPTY_BLOCK, true, Imm(1), v.inner)
    requires Touches(v.g1, v.g4, {v.outer.rhs, v.outer.yes, v.outer.no}) && v.g4.current == v.outer.join && v.outer.rhs in v.g4.blocks
    requires v.outer.yes in v.g4.blocks && v.g4.blocks[v.outer.yes] == ResultBlock(1, v.outer)
    requires v.outer.no in v.g4.blocks && v.g4.blocks[v.outer.no] == ResultBlock(0, v.outer)
    requires v.outer.join in v.g4.blocks && v.g4.blocks[v.outer.join] == EMPTY_BLOCK
    requires v.g4.blocks[v.outer.rhs] == v.g2.blocks[v.outer.rhs].(trueExit := To(v.outer.yes), falseExit := To(v.outer.no))
    requires v.last == AddInstr(v.g4, PrintTac(Name(v.outer.result)))
    ensures Broken(v.last.blocks, first, v.outer, v.inner)
  {
    hide Opened, Touches, LeftBranch, AddInstr, Fresh, NewIn;
    NamesApart(v);
    LastBlocks(v);
    BranchIs(v.outer, Bit(first));
    BranchIs(v.inner, 1);
  }

  lemma NamesApart(v: Stages)
    requires MAIN in v.g0.blocks && Opened(v.g0, v.g1, v.outer) && Opened(v.g1, v.g2, v.inner)
    requires Touches(v.g1, v.g4, {v.outer.rhs, v.outer.yes, v.outer.no})
    ensures MAIN in v.g1.blocks && MAIN in v.g4.blocks && v.g4.blocks[MAIN] == v.g1.blocks[MAIN]
    ensures v.inner.rhs !in Region(v.outer) && Apart(v.outer)
  {
    hide Fresh, NewIn;
  }

  lemma LastBlocks(v: Stages)
    requires v.g4.current == v.outer.join && v.outer.join in v.g4.blocks && v.g4.blocks[v.outer.join] == EMPTY_BLOCK
    requires v.last == AddInstr(v.g4, PrintTac(Name(v.outer.result)))
    ensures v.last.blocks == v.g4.blocks[v.outer.join := BBlock([PrintTac(Name(v.outer.result))], None, None)]
  {
    assert [] + [PrintTac(Name(v.outer.result))] == [PrintTac(Name(v.outer.result))];
  }

  lemma BranchIs(arms: Arms, n: int)
    ensures LeftBranch(EMPTY_BLOCK, true, Imm(n), arms) == BBlock([CondJump(arms.no, Imm(n)), Jump(arms.rhs)], To(arms.rhs), To(arms.no))
  {
    assert [] + [CondJump(arms.no, Imm(n)), Jump(arms.rhs)] == [CondJump(arms.no, Imm(n)), Jump(arms.rhs)];
  }

  /** No exit leads to the block that the code jumps to. */
  lemma JumpsToMissingBlock(b: Blocks, first: bool, outer: Arms, inner: Arms)
    requires Broken(b, first, outer, inner)
    ensures Reach(b, MAIN) <= Region(outer) && {MAIN, outer.rhs, outer.no} <= Reach(b, MAIN)
  {
    hide Reach;
    assert ClosedUnder(b, Region(outer));
    ReachLeast(b, MAIN, Region(outer));
    ReachRoot(b, MAIN);
    StepToExit(b, MAIN, outer.rhs);
    StepToExit(b, MAIN, outer.no);
  }

  lemma StepToExit(blocks: Blocks, root: string, x: string)
    requires root in blocks && x in Exits(blocks[root]) && x in blocks
    ensures x in Reach(blocks, root)
  {
    var ls := [root, x];
    assert Path(blocks, ls) && ls[0] == root && ls[|ls| - 1] == x;
  }

  // ----- without passes -----

  /** The program prints 1, but what is emitted for it without passes fails on the VM after seven instructions, without
      printing anything. */
  lemma NestedOperandBreaks(ms: seq<MethodCode>, scopes: map<string, Scope>)
    requires Emitted(ms, GenProgram(Nested(true)).blocks, [MAIN], scopes) && scopes[MAIN].params == []
    ensures ms != [] && Vm.Run(LoadProgram(ms), 7, Vm.Start(LoadProgram(ms))) == Vm.Done(I.Faulted(NoSuchBlock), [])
  {
    hide GenProgram, StagesOf, Reach, AsMap, LoadMethods, LowerAll, Exits;
    ExitsBroken(true);
    var v, b := StagesOf(true), GenProgram(Nested(true)).blocks;
    JumpsToMissingBlock(b, true, v.outer, v.inner);
    assert EmittedMethod(ms[0], b, true, MAIN, scopes[MAIN]);
    MissingRun(LoadProgram(ms), v.outer.no, v.outer.rhs, v.inner.no, v.inner.rhs) by {
      MainCode(ms[0], b, v.outer, v.inner, scopes[MAIN]);
    }
  }

  lemma LoweredPair(no: string, yes: string)
    ensures LowerAll([CondJump(no, Imm(1)), Jump(yes)]) == [CONST(1), CJMP(no), JMP(yes)]
  {
    var ts := [CondJump(no, Imm(1)), Jump(yes)];
    assert ts[..1] == [CondJump(no, Imm(1))] && ts[..1][..0] == [];
    assert LowerAll(ts[..1]) == Lower(ts[0]);
  }

  ghost predicate Begins(m: map<string, seq<Instruction>>, l: string, no: string, yes: string) {
    l in m && |m[l]| >= 3 && m[l][0] == CONST(1) && m[l][1] == CJMP(no) && m[l][2] == JMP(yes)
  }

  lemma MainCode(m: MethodCode, b: Blocks, outer: Arms, inner: Arms, scope: Scope)
    requires Broken(b, true, outer, inner) && EmittedMethod(m, b, true, MAIN, scope) && scope.params == []
    requires Reach(b, MAIN) <= Region(outer) && {MAIN, outer.rhs, outer.no} <= Reach(b, MAIN)
    ensures var code := AsMap(m.blocks);
            Begins(code, MAIN, outer.no, outer.rhs) && Begins(code, outer.rhs, inner.no, inner.rhs) && inner.rhs !in code
  {
    hide AsMap, Reach, LowerAll, Exits;
    LoweredPair(outer.no, outer.rhs);
    LoweredPair(inner.no, inner.rhs);
    assert outer.rhs in Reach(b, MAIN) && MAIN in Reach(b, MAIN);
    assert AsMap(m.blocks)[MAIN] == ExpectedCode(b, true, MAIN, scope.params, MAIN);
    assert AsMap(m.blocks)[outer.rhs] == ExpectedCode(b, true, MAIN, scope.params, outer.rhs);
  }

  lemma MissingRun(p: Vm.Program, no: string, rhs: string, no': string, missing: string)
    requires p.mainName == MAIN && Begins(p.main.blocks, MAIN, no, rhs) && Begins(p.main.blocks, rhs, no', missing)
    requires missing !in p.main.blocks
    ensures Vm.Run(p, 7, Vm.Start(p)) == Vm.Done(I.Faulted(NoSuchBlock), [])
  {
    hide Vm.Run;
    var v0 := Vm.Start(p);
    var v3 := v0.(cur := v0.cur.(block := rhs, pc := 0));
    ThreeSteps(p, v0, no, rhs);
    ThreeSteps(p, v3, no', missing);
    var v6 := v3.(cur := v3.cur.(block := missing, pc := 0));
    Vm.RunAdd(p, 3, 4, v0);
    Vm.RunAdd(p, 3, 1, v3);
    RunTwo(p, v6);
  }

  lemma ThreeSteps(p: Vm.Program, v: Vm.State, no: string, yes: string)
    requires v.Active? && v.cur.pc == 0 && Begins(v.cur.body.blocks, v.cur.block, no, yes)
    ensures Vm.Run(p, 3, v) == v.(cur := v.cur.(block := yes, pc := 0))
  {
    var v1 := v.(cur := v.cur.(pc := 1), stack := v.stack + [1]);
    var v2 := v.(cur := v.cur.(pc := 2));
    assert v.stack[..|v.stack| - 0] == v.stack && v1.stack[..|v1.stack| - 1] == v.stack;
    assert Vm.Step(p, v) == v1 && Vm.Step(p, v1) == v2;
    RunThree(p, v);
  }

  // ----- with the compiler's passes -----

  lemma AfterPasses(p: Program)
    requires GenProgram(p).roots == [MAIN]
    ensures var b := GenProgram(p).blocks;
            Optimised(p, PASSES) == FoldJumpsOf(FoldConstantsIn(b, Reached(b, [MAIN])), MAIN)
  {
    hide GenProgram, FoldJumpsOf, FoldConstantsIn, Reached;
    var b := GenProgram(p).blocks;
    assert PASSES[..1] == [ConstantFoldingPass] && PASSES[..1][..0] == [];
    assert AfterAll(PASSES[..1], b, [MAIN]) == FoldConstantsIn(b, Reached(b, [MAIN]));
    var c := FoldConstantsIn(b, Reached(b, [MAIN]));
    assert [MAIN][..0] == [] && FoldJumpsOfAll(c, []) == c;
    assert FoldJumpsOfAll(c, [MAIN]) == FoldJumpsOf(c, MAIN);
  }

  /** Constant folding has nothing to do in these blocks. */
  lemma NothingFolded(t: Instr, u: Instr)
    requires (t.CondJump? && t.cond.Imm?) || (t.Copy? && t.rhs.Imm?)
    requires u.Jump?
    ensures CF.FoldBlock([t, u]) == [t, u]
  {
    assert CF.EnvAt([t, u], 0) == map[];
    assert CF.FoldInstr(u, CF.EnvAt([t, u], 1)) == u;
  }

  lemma NothingFoldedPrint(t: Instr)
    requires t.PrintTac? && t.rhs.Name?
    ensures CF.FoldBlock([t]) == [t]
  {
    assert CF.EnvAt([t], 0) == map[];
  }

  lemma StillBroken(b: Blocks, first: bool, outer: Arms, inner: Arms, region: set<string>)
    requires Broken(b, first, outer, inner)
    ensures Broken(FoldConstantsIn(b, region), first, outer, inner)
  {
    hide CF.FoldBlock;
    NothingFolded(CondJump(outer.no, Imm(Bit(first))), Jump(outer.rhs));
    NothingFolded(CondJump(inner.no, Imm(1)), Jump(inner.rhs));
    NothingFolded(Copy(Imm(1), outer.result), Jump(outer.join));
    NothingFolded(Copy(Imm(0), outer.result), Jump(outer.join));
    NothingFoldedPrint(PrintTac(Name(outer.result)));
  }

  /** The branch on a constant becomes a jump to the arm it takes; with exits that disagree the true exit stays. */
  lemma BranchFolded(n: int, no: string, rhs: string, yes: string, out: string, names: set<string>)
    ensures JF.FoldJumps(BBlock([CondJump(no, Imm(n)), Jump(rhs)], To(yes), To(out)), names)
         == if n == 0 then BBlock([Jump(no)], To(out), None) else BBlock([Jump(rhs)], To(yes), None)
  {
    var b := BBlock([CondJump(no, Imm(n)), Jump(rhs)], To(yes), To(out));
    var l := if n == 0 then no else rhs;
    var x := if n == 0 then out else yes;
    assert JF.Decide(b, 0, names) == (To(l), To(x));
    assert [Jump(l), Jump(rhs)][..1] + [Jump(l), Jump(rhs)][2..] == [Jump(l)];
    assert b.instrs[0 := Jump(l)] == [Jump(l), Jump(rhs)];
    var r := BBlock([Jump(l)], To(x), None);
    assert JF.ApplyFold(b, 0, l, x) == r;
    assert JF.FoldFrom(r, 1, names) == r;
  }

  lemma NoBranchFolded(b: BBlock, names: set<string>)
    requires forall j :: 0 <= j < |b.instrs| ==> !JF.ConstantBranch(b.instrs[j])
    ensures JF.FoldJumps(b, names) == b
  {
    JF.SkipBranchless(b, 0, |b.instrs|, names);
  }

  /** What the passes leave. */
  ghost predicate Left(b: Blocks, first: bool, outer: Arms, inner: Arms) {
    && Region(outer) <= b.Keys && inner.rhs !in Region(outer) && Apart(outer)
    && b[MAIN] == (if first then BBlock([Jump(outer.rhs)], To(outer.rhs), None) else BBlock([Jump(outer.no)], To(outer.no), None))
    && b[outer.rhs] == BBlock([Jump(inner.rhs)], To(outer.yes), None)
    && b[outer.yes] == ResultBlock(1, outer) && b[outer.no] == ResultBlock(0, outer)
    && b[outer.join] == BBlock([PrintTac(Name(outer.result))], None, None)
  }

  lemma FoldLeaves(b: Blocks, first: bool, outer: Arms, inner: Arms)
    requires Broken(b, first, outer, inner)
    ensures Left(FoldJumpsOf(b, MAIN), first, outer, inner)
  {
    hide Reach, JF.FoldJumps;
    JumpsToMissingBlock(b, first, outer, inner);
    var names := Reach(b, MAIN);
    BranchFolded(Bit(first), outer.no, outer.rhs, outer.rhs, outer.no, names);
    BranchFolded(1, inner.no, inner.rhs, outer.yes, outer.no, names);
    NoBranchFolded(b[outer.yes], names);
    NoBranchFolded(b[outer.no], names);
    NoBranchFolded(b[outer.join], names);
  }

  lemma OptimisedLeft(first: bool)
    ensures var v := StagesOf(first);
            Left(Optimised(Nested(first), PASSES), first, v.outer, v.inner) && GenProgram(Nested(first)).roots == [MAIN]
  {
    hide GenProgram, StagesOf, Optimised, FoldJumpsOf, FoldConstantsIn, Reached, Broken, Left;
    var v := StagesOf(first);
    ExitsBroken(first);
    AfterPasses(Nested(first));
    var b := GenProgram(Nested(first)).blocks;
    StillBroken(b, first, v.outer, v.inner, Reached(b, [MAIN]));
    FoldLeaves(FoldConstantsIn(b, Reached(b, [MAIN])), first, v.outer, v.inner);
  }

  lemma LoweredJumpOnly(l: string)
    ensures LowerAll([Jump(l)]) == [JMP(l)]
  {
    assert [Jump(l)][..0] == [];
  }

  lemma RegionLeft(b: Blocks, outer: Arms, inner: Arms)
    requires Left(b, true, outer, inner)
    ensures Reach(b, MAIN) <= Region(outer) && MAIN in Reach(b, MAIN) && outer.rhs in Reach(b, MAIN)
  {
    hide Reach;
    assert ClosedUnder(b, Region(outer));
    ReachLeast(b, MAIN, Region(outer));
    ReachRoot(b, MAIN);
    StepToExit(b, MAIN, outer.rhs);
  }

  /** With the passes that the compiler runs the program fails as well, now after three instructions: the hypothesis
      on right operands cannot be dropped. */
  lemma NestedOperandStillBreaks(ms: seq<MethodCode>, scopes: map<string, Scope>)
    requires CompiledTo(Nested(true), PASSES, scopes, ms)
    ensures ms != [] && Vm.Run(LoadProgram(ms), 3, Vm.Start(LoadProgram(ms))) == Vm.Done(I.Faulted(NoSuchBlock), [])
    ensures SourceShows(Nested(true), I.Over(I.Finished, [1]))
  {
    hide GenProgram, StagesOf, Reach, AsMap, LoadMethods, Optimised, EmittedMethod, Left, IrOf, Source.Run;
    SourcePrints(true);
    assert LookSource(Source.Run(Nested(true), 0)) == I.Over(I.Finished, [1]);
    OptimisedLeft(true);
    var v, b := StagesOf(true), Optimised(Nested(true), PASSES);
    RegionLeft(b, v.outer, v.inner);
    assert MAIN in GenProgram(Nested(true)).roots && scopes[MAIN].params == [] by { MainHasNoParams(scopes); }
    assert EmittedMethod(ms[0], b, true, MAIN, scopes[MAIN]);
    JumpCode(ms[0], b, v.outer, v.inner, scopes[MAIN]);
    ThreeRun(LoadProgram(ms), v.outer.rhs, v.inner.rhs);
  }

  lemma MainHasNoParams(scopes: map<string, Scope>)
    requires ScopesFit(IrOf(Nested(true)), [MAIN], scopes)
    ensures MAIN in scopes && scopes[MAIN].params == []
  {
    hide GenProgram;
    assert MAIN in [MAIN];
  }

  lemma JumpCode(m: MethodCode, b: Blocks, outer: Arms, inner: Arms, scope: Scope)
    requires Left(b, true, outer, inner) && EmittedMethod(m, b, true, MAIN, scope) && scope.params == []
    requires Reach(b, MAIN) <= Region(outer) && MAIN in Reach(b, MAIN) && outer.rhs in Reach(b, MAIN)
    ensures var code := AsMap(m.blocks);
            MAIN in code && code[MAIN] == [JMP(outer.rhs)] && outer.rhs in code && code[outer.rhs] == [JMP(inner.rhs)] && inner.rhs !in code
    ensures m.name == MAIN
  {
    hide AsMap, Reach, LowerAll;
    LoweredJumpOnly(outer.rhs);
    LoweredJumpOnly(inner.rhs);
    assert AsMap(m.blocks)[MAIN] == ExpectedCode(b, true, MAIN, scope.params, MAIN);
    assert AsMap(m.blocks)[outer.rhs] == ExpectedCode(b, true, MAIN, scope.params, outer.rhs);
  }

  lemma ThreeRun(p: Vm.Program, rhs: string, missing: string)
    requires p.mainName == MAIN && MAIN in p.main.blocks && p.main.blocks[MAIN] == [JMP(rhs)]
    requires rhs in p.main.blocks && p.main.blocks[rhs] == [JMP(missing)] && missing !in p.main.blocks
    ensures Vm.Run(p, 3, Vm.Start(p)) == Vm.Done(I.Faulted(NoSuchBlock), [])
  {
    var v0 := Vm.Start(p);
    var v1 := v0.(cur := v0.cur.(block := rhs, pc := 0));
    var v2 := v0.(cur := v0.cur.(block := missing, pc := 0));
    assert Vm.Step(p, v0) == v1 && Vm.Step(p, v1) == v2;
    RunThree(p, v0);
  }

  // ----- a nested short circuit that does no harm -----

  /** Folding turns main's branch into a jump past the right operand. */
  lemma FalseReached(b: Blocks, outer: Arms, inner: Arms)
    requires Left(b, false, outer, inner)
    ensures LabelsReached(b, MAIN)
  {
    hide Reach;
    var region := {MAIN, outer.no, outer.join};
    assert ClosedUnder(b, region);
    ReachLeast(b, MAIN, region);
    ReachRoot(b, MAIN);
    StepToExit(b, MAIN, outer.no);
    TwoSteps(b, MAIN, outer.no, outer.join);
  }

  lemma TwoSteps(blocks: Blocks, root: string, x: string, y: string)
    requires root in blocks && x in blocks && y in blocks && x in Exits(blocks[root]) && y in Exits(blocks[x])
    ensures y in Reach(blocks, root)
  {
    var ls := [root, x, y];
    assert Path(blocks, ls) && ls[0] == root && ls[|ls| - 1] == y;
  }

  /** So the condition is exact for code as it is generated (EmittedLabels.ProgramLabelsExactly), but not after the passes:
      this program violates it, and is compiled correctly all the same. Without passes its code names a block that is
      not emitted. */
  lemma FalseOperandRuns(ms: seq<MethodCode>, scopes: map<string, Scope>, plain: seq<MethodCode>)
    requires CompiledTo(Nested(false), PASSES, scopes, ms) && CompiledTo(Nested(false), [], scopes, plain)
    ensures !ExitTargets.NoShortCircuitUpTo(Nested(false), 0) && !AllLabelsNamed(plain)
    ensures AllLabelsNamed(ms) && ms != [] && Vm.Shows(LoadProgram(ms), I.Over(I.Finished, [0]))
  {
    hide GenProgram, StagesOf, Reach, Optimised, Emitted, Left, IrOf, Source.Run, ScopesFit, Source.GoodProgram, AllLabelsNamed, Vm.Shows,
      ExitTargets.NoShortCircuitUpTo, LoadProgram, LabelsReached;
    NestedIsGood(false);
    SourcePrints(false);
    assert LookSource(Source.Run(Nested(false), 0)) == I.Over(I.Finished, [0]);
    OptimisedLeft(false);
    var v, b := StagesOf(false), Optimised(Nested(false), PASSES);
    FalseReached(b, v.outer, v.inner);
    LabelsNamedExactly(ms, b, [MAIN], scopes);
    CompilerCorrect(Nested(false), PASSES, scopes, ms);
    NoPasses(Nested(false));
    ProgramLabelsExactly(Nested(false), plain, scopes);
  }

  lemma NoPasses(p: Program)
    ensures Optimised(p, []) == GenProgram(p).blocks
  {
    hide GenProgram;
  }
}
