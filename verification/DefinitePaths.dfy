/** Definite assignment for whole programs: along every path of control from the root of a method, each temporary
    has been set before it is read; in generated code and after any list of passes. */
module DefinitePaths {
  import opened Ast
  import opened Tac
  import opened FlowGraph
  import opened IrGeneration
  import opened GraphGrowth
  import opened ProgramGeneration
  import opened ExitTargets
  import opened Reachability
  import opened Passes
  import opened DefiniteAssignment
  import CF = ConstantFolding
  import JF = JumpFolding
  import PC = PassesCorrect
  import Pipeline
  import Source

  // ----- paths -----

  datatype Place = Place(block: string, index: nat)

  /** Control may pass from a to b; a call comes back to the next instruction. */
  ghost predicate Follows(code: map<string, seq<Instr>>, a: Place, b: Place) {
    && a.block in code && a.index < |code[a.block]|
    && var t := code[a.block][a.index];
       || (!t.Jump? && !t.Return? && b == Place(a.block, a.index + 1))
       || (b.index == 0 && b.block in Labels(t))
  }

  ghost predicate Path(code: map<string, seq<Instr>>, root: string, ps: seq<Place>) {
    ps != [] && ps[0] == Place(root, 0) && forall i {:trigger ps[i]} :: 0 < i < |ps| ==> Follows(code, ps[i - 1], ps[i])
  }

  ghost function SetAt(code: map<string, seq<Instr>>, a: Place): set<string> {
    if a.block in code && a.index < |code[a.block]| then Sets(code[a.block][a.index]) else {}
  }

  /** What the instructions that a path has passed, all but the one it stands at, have set. */
  ghost function SetAlong(code: map<string, seq<Instr>>, ps: seq<Place>): set<string> {
    if |ps| < 2 then {} else SetAlong(code, ps[..|ps| - 1]) + SetAt(code, ps[|ps| - 2])
  }

  /** The path ends inside the code, and what the instruction there reads has been set on the way. */
  ghost predicate SetOnTheWay(code: map<string, seq<Instr>>, ps: seq<Place>)
    requires ps != []
  {
    var here: Place := ps[|ps| - 1];
    here.block in code && (here.index < |code[here.block]| ==> Uses(code[here.block][here.index]) <= SetAlong(code, ps))
  }

  /** Along every path from the root each temporary is set before it is read. */
  ghost predicate SetBeforeUse(code: map<string, seq<Instr>>, root: string) {
    forall ps {:trigger Path(code, root, ps)} :: Path(code, root, ps) ==> SetOnTheWay(code, ps)
  }

  lemma {:induction false} PathDefines(blocks: Blocks, at: Entry, root: string, ps: seq<Place>)
    requires Certified(blocks, at) && root in at && at[root] == {} && Path(Code(blocks), root, ps)
    ensures var here := ps[|ps| - 1];
            && here.block in blocks && here.index <= |blocks[here.block].instrs|
            && at[here.block] + SetsOf(blocks[here.block].instrs[..here.index]) <= SetAlong(Code(blocks), ps)
  {
    hide Uses, Sets, Labels;
    var n := |ps| - 1;
    if n > 0 {
      assert ps[..n][n - 1] == ps[n - 1];
      PathDefines(blocks, at, root, ps[..n]);
      assert Follows(Code(blocks), ps[n - 1], ps[n]);
      StepDefines(blocks, at, ps[n - 1], ps[n]);
    }
  }

  lemma StepDefines(blocks: Blocks, at: Entry, a: Place, b: Place)
    requires Certified(blocks, at) && Follows(Code(blocks), a, b)
    ensures a.block in blocks && a.index < |blocks[a.block].instrs| && b.block in blocks && b.index <= |blocks[b.block].instrs|
    ensures at[b.block] + SetsOf(blocks[b.block].instrs[..b.index])
         <= at[a.block] + SetsOf(blocks[a.block].instrs[..a.index]) + SetAt(Code(blocks), a)
  {
    hide Uses, Sets, Labels;
    var ts := blocks[a.block].instrs;
    assert BlockFine(ts, at[a.block], at);
    assert MayRun(ts[a.index], at[a.block] + SetsOf(ts[..a.index]), at);
    assert ts[..a.index + 1][..a.index] == ts[..a.index];
    assert ts[..a.index + 1][a.index] == ts[a.index];
  }

  lemma CertifiedPaths(blocks: Blocks, at: Entry, root: string)
    requires Certified(blocks, at) && root in at && at[root] == {}
    ensures SetBeforeUse(Code(blocks), root)
  {
    hide Uses, Sets, Labels, SetsOf;
    forall ps: seq<Place> | Path(Code(blocks), root, ps)
      ensures SetOnTheWay(Code(blocks), ps)
    {
      var here: Place := ps[|ps| - 1];
      PathDefines(blocks, at, root, ps);
      var ts := blocks[here.block].instrs;
      assert BlockFine(ts, at[here.block], at);
      if here.index < |ts| { assert MayRun(ts[here.index], at[here.block] + SetsOf(ts[..here.index]), at); }
    }
  }

  // ----- programs -----

  lemma {:induction false} GoodIsPlain(p: Program, e: Expr)
    requires Source.GoodExpr(p, e)
    ensures Plain(e)
    decreases e
  {
    match e
    case Binary(_, l, r) =>
      GoodIsPlain(p, l);
      GoodIsPlain(p, r);
    case And(l, r) =>
      GoodIsPlain(p, l);
      GoodIsPlain(p, r);
    case Or(l, r) =>
      GoodIsPlain(p, l);
      GoodIsPlain(p, r);
    case ArrayAccess(l, r) =>
      GoodIsPlain(p, l);
      GoodIsPlain(p, r);
    case Not(x) => GoodIsPlain(p, x);
    case NewArray(x) => GoodIsPlain(p, x);
    case ArrayLength(x) => GoodIsPlain(p, x);
    case Call(r, c, m, args) =>
      GoodIsPlain(p, r);
      forall a | a in args
        ensures Plain(a)
      {
        GoodIsPlain(p, a);
      }
    case _ =>
  }

  lemma {:induction false} GoodIsPlainStmt(p: Program, s: Stmt)
    requires Source.GoodStmt(p, s)
    ensures PlainStmt(s)
    decreases s
  {
    hide Plain, Source.GoodExpr;
    match s
    case Assign(_, e) => GoodIsPlain(p, e);
    case ArrayAssign(_, i, e) =>
      GoodIsPlain(p, i);
      GoodIsPlain(p, e);
    case Print(e) => GoodIsPlain(p, e);
    case If(c, t) =>
      GoodIsPlain(p, c);
      GoodIsPlainStmt(p, t);
    case IfElse(c, t, f) =>
      GoodIsPlain(p, c);
      GoodIsPlainStmt(p, t);
      GoodIsPlainStmt(p, f);
    case While(c, b) =>
      GoodIsPlain(p, c);
      GoodIsPlainStmt(p, b);
    case Block(ss) =>
      forall t | t in ss
        ensures PlainStmt(t)
      {
        GoodIsPlainStmt(p, t);
      }
  }

  ghost predicate FreeRoots(roots: seq<string>, at: Entry) {
    forall r {:trigger at[r]} {:trigger r in roots} :: r in roots ==> r in at && at[r] == {}
  }

  /** A method starts with nothing defined. */
  lemma RootFine(g: Graph, at: Entry, name: string, scope: set<string>)
    requires Certified(g.blocks, at) && FreeRoots(g.roots, at) && name !in g.blocks && Ready(AddRoot(g, name, scope))
    ensures var h := AddRoot(g, name, scope);
            Sound(h, at[name := {}]) && FreeRoots(h.roots, at[name := {}])
  {
    hide MayRun, SetsOf;
    var h, at' := AddRoot(g, name, scope), at[name := {}];
    forall l | l in h.blocks
      ensures BlockFine(h.blocks[l].instrs, at'[l], at')
    {
      if l != name { StillFine(g.blocks[l].instrs, at[l], at, at'); }
    }
  }

  lemma ExtendsRoots(roots: seq<string>, at: Entry, at': Entry)
    requires FreeRoots(roots, at) && Extends(at, at')
    ensures FreeRoots(roots, at')
  {
  }

  lemma BodyDefines(m: Method, g: Graph, at: Entry) returns (at': Entry)
    requires (forall s | s in m.body :: PlainStmt(s)) && Plain(m.result) && Sound(g, at)
    ensures Sound(GenBody(m, g), at') && Extends(at, at')
  {
    hide Certified, SetsOf, PlainStmt, Plain, GenStmt, GenExpr, AddInstr, Fresh;
    var at1 := StmtsDefine(Block(m.body), 0, g, at);
    assert m.body[0..] == m.body;
    var g1 := GenStmts(m.body, g);
    at' := ExprDefines(m.result, g1, at1);
    AddFine(GenExpr(m.result, g1).0, at', Return(GenExpr(m.result, g1).1));
  }

  lemma MainDefines(p: Program) returns (at: Entry)
    requires Source.GoodProgram(p)
    ensures Certified(GenMain(p).blocks, at) && FreeRoots(GenMain(p).roots, at)
  {
    hide Certified, PlainStmt, GenStmt, Source.GoodStmt, Source.GoodExpr;
    MainGrows(p);
    EmptyCertified();
    RootFine(EMPTY_GRAPH, map[], p.mainName, p.mainSig.locals);
    forall s | s in p.mainBody
      ensures PlainStmt(s)
    {
      GoodIsPlainStmt(p, s);
    }
    at := StmtsDefine(Block(p.mainBody), 0, MainStart(p), map[p.mainName := {}]);
    assert p.mainBody[0..] == p.mainBody;
    ExtendsRoots(MainStart(p).roots, map[p.mainName := {}], at);
  }

  lemma EmptyCertified()
    ensures Certified(EMPTY_GRAPH.blocks, map[]) && FreeRoots(EMPTY_GRAPH.roots, map[])
  {
  }

  lemma {:induction false} UpToDefines(p: Program, n: nat) returns (at: Entry)
    requires Source.GoodProgram(p) && n <= |p.order|
    ensures Certified(GenUpTo(p, n).blocks, at) && FreeRoots(GenUpTo(p, n).roots, at)
    decreases n
  {
    hide Certified, FreeRoots, Source.GoodProgram, GenMain, Touches, Fresh;
    if n == 0 {
      at := MainDefines(p);
    } else {
      at := UpToDefines(p, n - 1);
      at := MethodDefines(p, n - 1, at);
    }
  }

  lemma MethodDefines(p: Program, i: nat, at: Entry) returns (at': Entry)
    requires Source.GoodProgram(p) && i < |p.order|
    requires Certified(GenUpTo(p, i).blocks, at) && FreeRoots(GenUpTo(p, i).roots, at)
    ensures Certified(GenUpTo(p, i + 1).blocks, at') && FreeRoots(GenUpTo(p, i + 1).roots, at')
  {
    hide Certified, FreeRoots, Source.GoodProgram, Fresh, GenBody, Extends, Accounted;
    UpToGrows(p, i);
    UpToGrows(p, i + 1);
    var name := p.order[i];
    var m, g := p.methods[name], GenUpTo(p, i);
    var start := AddRoot(g, name, m.sig.locals);
    RootIsNew(p, g, i);
    RootFine(g, at, name, m.sig.locals);
    MethodPlain(p, name);
    at' := BodyDefines(m, start, at[name := {}]);
    ExtendsRoots(start.roots, at[name := {}], at');
  }

  lemma MethodPlain(p: Program, name: string)
    requires Source.GoodProgram(p) && name in p.methods
    ensures Plain(p.methods[name].result) && forall s | s in p.methods[name].body :: PlainStmt(s)
  {
    hide Plain, PlainStmt, Source.GoodStmt, Source.GoodExpr;
    GoodIsPlain(p, p.methods[name].result);
    forall s | s in p.methods[name].body
      ensures PlainStmt(s)
    {
      GoodIsPlainStmt(p, s);
    }
  }

  /** In the code generated for any program, short circuits nested or not, no temporary is read before it is set. */
  lemma GeneratedSetBeforeUse(p: Program, root: string)
    requires Source.GoodProgram(p) && root in GenProgram(p).roots
    ensures SetBeforeUse(Code(GenProgram(p).blocks), root)
  {
    hide Certified, SetBeforeUse, Source.GoodProgram, GenUpTo, Code;
    var at := UpToDefines(p, |p.order|);
    CertifiedPaths(GenProgram(p).blocks, at, root);
  }

  // ----- the passes -----

  lemma FoldInstrDefines(t: Instr, env: CF.Env)
    ensures Uses(CF.FoldInstr(t, env)) <= Uses(t) && Sets(CF.FoldInstr(t, env)) == Sets(t) && Labels(CF.FoldInstr(t, env)) == Labels(t)
  {
    hide CF.FoldBinary;
  }

  lemma FoldedSame(ts: seq<Instr>, i: nat)
    requires i < |ts|
    ensures var t := CF.FoldBlock(ts)[i];
            Uses(t) <= Uses(ts[i]) && Sets(t) == Sets(ts[i]) && Labels(t) == Labels(ts[i])
  {
    hide Uses, Sets, Labels, CF.FoldInstr, CF.EnvAt;
    FoldInstrDefines(ts[i], CF.EnvAt(ts, i));
  }

  lemma {:induction false} FoldedSets(ts: seq<Instr>, n: nat)
    requires n <= |ts|
    ensures SetsOf(CF.FoldBlock(ts)[..n]) == SetsOf(ts[..n])
    decreases n
  {
    hide Sets, CF.FoldInstr, CF.FoldBlock;
    if n > 0 {
      FoldedSets(ts, n - 1);
      FoldedSame(ts, n - 1);
      assert ts[..n][..n - 1] == ts[..n - 1];
      assert CF.FoldBlock(ts)[..n][..n - 1] == CF.FoldBlock(ts)[..n - 1];
    }
  }

  lemma FoldedFine(ts: seq<Instr>, d: set<string>, at: Entry)
    requires BlockFine(ts, d, at)
    ensures BlockFine(CF.FoldBlock(ts), d, at)
  {
    hide Uses, Labels, SetsOf, CF.FoldBlock;
    var r := CF.FoldBlock(ts);
    forall i | 0 <= i < |r|
      ensures MayRun(r[i], d + SetsOf(r[..i]), at)
    {
      FoldedSets(ts, i);
      FoldedSame(ts, i);
      assert MayRun(ts[i], d + SetsOf(ts[..i]), at);
    }
  }

  lemma FoldConstantsFine(blocks: Blocks, region: set<string>, at: Entry)
    requires Certified(blocks, at)
    ensures Certified(FoldConstantsIn(blocks, region), at)
  {
    hide BlockFine, CF.FoldBlock;
    forall l | l in blocks
      ensures BlockFine(FoldConstantsIn(blocks, region)[l].instrs, at[l], at)
    {
      FoldedFine(blocks[l].instrs, at[l], at);
    }
  }

  lemma SimplifiedFine(ts: seq<Instr>, d: set<string>, at: Entry)
    requires BlockFine(ts, d, at)
    ensures BlockFine(JF.SimplifiedCode(ts), d, at)
  {
    hide SetsOf;
    if JF.HasConstantBranch(ts) {
      var n, r := |ts|, JF.SimplifiedCode(ts);
      assert MayRun(ts[n - 2], d + SetsOf(ts[..n - 2]), at);
      assert MayRun(ts[n - 1], d + SetsOf(ts[..n - 1]), at);
      assert ts[n - 2].target in Labels(ts[n - 2]) && ts[n - 1].target in Labels(ts[n - 1]);
      BranchSetsNothing(ts);
      assert r[..n - 2] == ts[..n - 2];
      forall i | 0 <= i < |r|
        ensures MayRun(r[i], d + SetsOf(r[..i]), at)
      {
        if i < n - 2 {
          assert r[..i] == ts[..i];
          assert MayRun(ts[i], d + SetsOf(ts[..i]), at);
        }
      }
    }
  }

  lemma BranchSetsNothing(ts: seq<Instr>)
    requires |ts| >= 2 && ts[|ts| - 2].CondJump?
    ensures SetsOf(ts[..|ts| - 1]) == SetsOf(ts[..|ts| - 2])
  {
    var n := |ts| - 1;
    assert ts[..n][..n - 1] == ts[..n - 1];
  }

  lemma {:induction false} FoldJumpsFine(blocks: Blocks, rs: seq<string>, roots: seq<string>, owner: map<string, string>, at: Entry)
    requires PC.Tidy(blocks, roots, owner) && Certified(blocks, at) && forall r :: r in rs ==> r in roots
    ensures Certified(FoldJumpsOfAll(blocks, rs), at) && PC.Tidy(FoldJumpsOfAll(blocks, rs), roots, owner)
    ensures FoldJumpsOfAll(blocks, rs).Keys == blocks.Keys
  {
    hide PC.Tidy, FoldJumpsOf, BlockFine, JF.SimplifiedCode, JF.WellEnded;
    if rs != [] {
      var before, r := FoldJumpsOfAll(blocks, rs[..|rs| - 1]), rs[|rs| - 1];
      FoldJumpsFine(blocks, rs[..|rs| - 1], roots, owner, at);
      PC.FoldJumpsOfTidy(before, r, roots, owner);
      var after := FoldJumpsOf(before, r);
      forall l | l in before
        ensures BlockFine(after[l].instrs, at[l], at)
      {
        assert l in Code(before) && Code(after)[l] == after[l].instrs;
        SimplifiedFine(before[l].instrs, at[l], at);
      }
    }
  }

  lemma {:induction false} PassesFine(passes: seq<Pass>, blocks: Blocks, roots: seq<string>, owner: map<string, string>, at: Entry)
    requires PC.Tidy(blocks, roots, owner) && Certified(blocks, at)
    ensures Certified(AfterAll(passes, blocks, roots), at) && PC.Tidy(AfterAll(passes, blocks, roots), roots, owner)
    ensures AfterAll(passes, blocks, roots).Keys == blocks.Keys
  {
    hide PC.Tidy, Certified, Reached, FoldJumpsOfAll;
    if passes != [] {
      var n := |passes| - 1;
      var before := AfterAll(passes[..n], blocks, roots);
      PassesFine(passes[..n], blocks, roots, owner, at);
      match passes[n]
      case ConstantFoldingPass =>
        FoldConstantsFine(before, Reached(before, roots), at);
        PC.FoldConstantsTidy(before, Reached(before, roots), roots, owner);
      case ConditionalJumpFoldingPass => FoldJumpsFine(before, roots, roots, owner, at);
    }
  }

  /** Nor is it after any list of passes. */
  lemma OptimisedSetBeforeUse(p: Program, passes: seq<Pass>, root: string)
    requires Source.GoodProgram(p) && root in GenProgram(p).roots
    ensures SetBeforeUse(Code(Pipeline.Optimised(p, passes)), root)
  {
    hide Certified, SetBeforeUse, Source.GoodProgram, GenUpTo, Code, PC.Tidy, AfterAll;
    var g := GenProgram(p);
    var at := UpToDefines(p, |p.order|);
    Pipeline.GeneratedTidy(p);
    PassesFine(passes, g.blocks, g.roots, OwnersUpTo(p, |p.order|), at);
    CertifiedPaths(Pipeline.Optimised(p, passes), at, root);
  }
}
