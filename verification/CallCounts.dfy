/** Every call in generated code names a method of the program and carries the number of its parameters
    (src/ir/IRGenerationVisitor.cpp:537-627). */
module CallCounts {
  import opened Ast
  import opened FlowGraph
  import opened IrGeneration
  import opened Names
  import opened Tac
  import Source

  predicate Counted(p: Program, t: Instr) {
    t.Invoke? ==> t.target in p.methods && t.argCount == |p.methods[t.target].sig.params|
  }

  ghost predicate AllCounted(p: Program, g: Graph) {
    forall l, t {:trigger t in g.blocks[l].instrs} :: l in g.blocks && t in g.blocks[l].instrs ==> Counted(p, t)
  }

  lemma SameInstructions(p: Program, g: Graph, h: Graph)
    requires AllCounted(p, g)
    requires forall l :: l in h.blocks ==> h.blocks[l].instrs == [] || (l in g.blocks && h.blocks[l].instrs == g.blocks[l].instrs)
    ensures AllCounted(p, h)
  {
  }

  lemma OneMore(p: Program, g: Graph, t: Instr)
    requires AllCounted(p, g) && Counted(p, t)
    ensures AllCounted(p, AddInstr(g, t))
  {
    hide Counted;
    var h := AddInstr(g, t);
    forall l, u | l in h.blocks && u in h.blocks[l].instrs
      ensures Counted(p, u)
    {
      if l == g.current && u != t { assert u in Here(g).instrs; }
    }
  }

  lemma Branched(p: Program, g: Graph, cond: Operand, onTrue: string, onFalse: string)
    requires AllCounted(p, g)
    ensures AllCounted(p, AddBranch(g, cond, onTrue, onFalse))
  {
    hide AllCounted, AddInstr;
    OneMore(p, g, CondJump(onFalse, cond));
    OneMore(p, AddInstr(g, CondJump(onFalse, cond)), Jump(onTrue));
  }

  lemma Jumped(p: Program, g: Graph, l: string)
    requires AllCounted(p, g)
    ensures AllCounted(p, AddJump(g, l))
  {
    OneMore(p, g, Jump(l));
    SameInstructions(p, AddInstr(g, Jump(l)), AddJump(g, l));
  }

  lemma Opened(p: Program, g: Graph, isAnd: bool, a: Operand)
    requires AllCounted(p, g)
    ensures AllCounted(p, OpenShortCircuit(g, isAnd, a).0)
  {
    var (g1, arms) := NewArms(g);
    SameInstructions(p, g, g1);
    var (onTrue, onFalse) := if isAnd then (arms.rhs, arms.no) else (arms.yes, arms.rhs);
    Branched(p, g1, a, onTrue, onFalse);
    SameInstructions(p, AddBranch(g1, a, onTrue, onFalse), OpenShortCircuit(g, isAnd, a).0);
  }

  lemma Given(p: Program, g: Graph, value: int, arm: string, arms: Arms)
    requires AllCounted(p, g)
    ensures AllCounted(p, GiveResult(g, value, arm, arms))
  {
    hide AddInstr, AddJump;
    SameInstructions(p, g, MoveTo(g, arm));
    OneMore(p, MoveTo(g, arm), Copy(Imm(value), arms.result));
    Jumped(p, AddInstr(MoveTo(g, arm), Copy(Imm(value), arms.result)), arms.join);
  }

  lemma Closed(p: Program, g: Graph, b: Operand, arms: Arms)
    requires AllCounted(p, g)
    ensures AllCounted(p, CloseShortCircuit(g, b, arms))
  {
    hide AddBranch, GiveResult;
    Branched(p, g, b, arms.yes, arms.no);
    var g1 := CloseRight(g, b, arms);
    SameInstructions(p, AddBranch(g, b, arms.yes, arms.no), g1);
    Given(p, g1, 1, arms.yes, arms);
    Given(p, GiveResult(g1, 1, arms.yes, arms), 0, arms.no, arms);
    SameInstructions(p, GiveResult(GiveResult(g1, 1, arms.yes, arms), 0, arms.no, arms), CloseShortCircuit(g, b, arms));
  }

  lemma Defined(p: Program, g: Graph, g': Graph, t: Instr)
    requires AllCounted(p, g) && g'.blocks == g.blocks && Counted(p, t)
    ensures AllCounted(p, AddInstr(g', t))
  {
    SameInstructions(p, g, g');
    OneMore(p, g', t);
  }

  lemma {:induction false} ExprCounted(p: Program, e: Expr, g: Graph)
    requires Source.GoodExpr(p, e) && AllCounted(p, g)
    ensures AllCounted(p, GenExpr(e, g).0)
    decreases e
  {
    hide AllCounted, AddInstr, OpenShortCircuit, CloseShortCircuit;
    match e
    case Binary(op, l, r) =>
      ExprCounted(p, l, g);
      var (g1, a) := GenExpr(l, g);
      ExprCounted(p, r, g1);
      var (g2, b) := GenExpr(r, g1);
      Defined(p, g2, NewTemp(g2).0, Bin(op, NewTemp(g2).1, a, b));
    case Not(r) =>
      ExprCounted(p, r, g);
      var (g1, a) := GenExpr(r, g);
      Defined(p, g1, NewTemp(g1).0, NotTac(NewTemp(g1).1, a));
    case And(l, r) => AndCounted(p, l, r, g);
    case Or(l, r) => OrCounted(p, l, r, g);
    case NewObject(c) => Defined(p, g, NewTemp(g).0, New(NewTemp(g).1, c));
    case NewArray(r) =>
      SameBlocks(p, g, NewTemp(g).0);
      ExprCounted(p, r, NewTemp(g).0);
      var (g2, a) := GenExpr(r, NewTemp(g).0);
      OneMore(p, g2, NewArr(NewTemp(g).1, a));
    case ArrayLength(r) =>
      SameBlocks(p, g, NewTemp(g).0);
      ExprCounted(p, r, NewTemp(g).0);
      var (g2, a) := GenExpr(r, NewTemp(g).0);
      OneMore(p, g2, Length(NewTemp(g).1, a));
    case ArrayAccess(l, r) =>
      ExprCounted(p, l, g);
      var (g1, a) := GenExpr(l, g);
      ExprCounted(p, r, g1);
      var (g2, b) := GenExpr(r, g1);
      Defined(p, g2, NewTemp(g2).0, Access(NewTemp(g2).1, a, b));
    case Call(r, c, m, args) =>
      ExprCounted(p, r, g);
      var (g1, a) := GenExpr(r, g);
      ArgsCounted(p, args, g1);
      var g2 := GenArgs(args, g1);
      Defined(p, g2, NewTemp(g2).0, Invoke(NewTemp(g2).1, a, RootName(c, m), |args|));
    case _ =>
  }

  lemma SameBlocks(p: Program, g: Graph, h: Graph)
    requires AllCounted(p, g) && h.blocks == g.blocks
    ensures AllCounted(p, h)
  {
  }

  lemma AndCounted(p: Program, l: Expr, r: Expr, g: Graph)
    requires Source.GoodExpr(p, l) && Source.GoodExpr(p, r) && AllCounted(p, g)
    ensures AllCounted(p, GenExpr(And(l, r), g).0)
    decreases And(l, r), 0
  {
    ExprCounted(p, l, g);
    AndIs(l, r, g);
    hide AllCounted, OpenShortCircuit, CloseShortCircuit, Source.GoodExpr, GenExpr;
    var (g1, a) := GenExpr(l, g);
    Opened(p, g1, true, a);
    var (g2, arms) := OpenShortCircuit(g1, true, a);
    ExprCounted(p, r, g2);
    Closed(p, GenExpr(r, g2).0, GenExpr(r, g2).1, arms);
  }

  lemma AndIs(l: Expr, r: Expr, g: Graph)
    ensures var (g1, a) := GenExpr(l, g);
            var (g2, arms) := OpenShortCircuit(g1, true, a);
            GenExpr(And(l, r), g).0 == CloseShortCircuit(GenExpr(r, g2).0, GenExpr(r, g2).1, arms)
  {
    hide OpenShortCircuit, CloseShortCircuit;
  }

  lemma OrCounted(p: Program, l: Expr, r: Expr, g: Graph)
    requires Source.GoodExpr(p, l) && Source.GoodExpr(p, r) && AllCounted(p, g)
    ensures AllCounted(p, GenExpr(Or(l, r), g).0)
    decreases Or(l, r), 0
  {
    ExprCounted(p, l, g);
    OrIs(l, r, g);
    hide AllCounted, OpenShortCircuit, CloseShortCircuit, Source.GoodExpr, GenExpr;
    var (g1, a) := GenExpr(l, g);
    Opened(p, g1, false, a);
    var (g2, arms) := OpenShortCircuit(g1, false, a);
    ExprCounted(p, r, g2);
    Closed(p, GenExpr(r, g2).0, GenExpr(r, g2).1, arms);
  }

  lemma OrIs(l: Expr, r: Expr, g: Graph)
    ensures var (g1, a) := GenExpr(l, g);
            var (g2, arms) := OpenShortCircuit(g1, false, a);
            GenExpr(Or(l, r), g).0 == CloseShortCircuit(GenExpr(r, g2).0, GenExpr(r, g2).1, arms)
  {
    hide OpenShortCircuit, CloseShortCircuit;
  }

  lemma {:induction false} ArgsCounted(p: Program, args: seq<Expr>, g: Graph)
    requires (forall a | a in args :: Source.GoodExpr(p, a)) && AllCounted(p, g)
    ensures AllCounted(p, GenArgs(args, g))
    decreases args
  {
    hide AllCounted, Source.GoodExpr, AddInstr;
    if args != [] {
      ExprCounted(p, args[0], g);
      var (g1, a) := GenExpr(args[0], g);
      OneMore(p, g1, Param(a));
      ArgsCounted(p, args[1..], AddInstr(g1, Param(a)));
    }
  }

  lemma {:induction false} StmtCounted(p: Program, s: Stmt, g: Graph)
    requires Source.GoodStmt(p, s) && AllCounted(p, g)
    ensures AllCounted(p, GenStmt(s, g))
    decreases s, 1
  {
    hide AllCounted, AddInstr, Source.GoodExpr;
    match s
    case Assign(x, e) =>
      ExprCounted(p, e, g);
      OneMore(p, GenExpr(e, g).0, Copy(GenExpr(e, g).1, x));
    case ArrayAssign(x, index, e) =>
      ExprCounted(p, index, g);
      var (g1, i) := GenExpr(index, g);
      ExprCounted(p, e, g1);
      OneMore(p, GenExpr(e, g1).0, ArrayCopy(x, i, GenExpr(e, g1).1));
    case Print(e) =>
      ExprCounted(p, e, g);
      OneMore(p, GenExpr(e, g).0, PrintTac(GenExpr(e, g).1));
    case If(c, thn) => IfCounted(p, c, thn, g);
    case IfElse(c, thn, els) => IfElseCounted(p, c, thn, els, g);
    case While(c, body) => WhileCounted(p, c, body, g);
    case Block(ss) => StmtsCounted(p, ss, g);
  }

  lemma Condition(p: Program, c: Expr, g: Graph, yes: string, no: string)
    requires Source.GoodExpr(p, c) && AllCounted(p, g)
    ensures var (g1, a) := GenExpr(c, g); AllCounted(p, CloseCondition(g1, a, yes, no)) && AllCounted(p, AddBranch(g1, a, yes, no))
  {
    hide AddBranch;
    ExprCounted(p, c, g);
    var (g1, a) := GenExpr(c, g);
    Branched(p, g1, a, yes, no);
    SameInstructions(p, AddBranch(g1, a, yes, no), CloseCondition(g1, a, yes, no));
  }

  lemma Moved(p: Program, g: Graph, l: string)
    requires AllCounted(p, g)
    ensures AllCounted(p, MoveTo(g, l))
  {
  }

  lemma IfCounted(p: Program, c: Expr, thn: Stmt, g: Graph)
    requires Source.GoodExpr(p, c) && Source.GoodStmt(p, thn) && AllCounted(p, g)
    ensures AllCounted(p, GenStmt(If(c, thn), g))
    decreases If(c, thn), 0
  {
    hide Source.GoodExpr, Source.GoodStmt, CloseCondition, AddJump;
    var (g1, yes) := NewBlock(g);
    var (g2, join) := NewBlock(g1);
    SameInstructions(p, g, g2);
    hide AllCounted, NewBlock, MoveTo;
    Condition(p, c, g2, yes, join);
    var (g3, a) := GenExpr(c, g2);
    var g4 := CloseCondition(g3, a, yes, join);
    Moved(p, g4, yes);
    StmtCounted(p, thn, MoveTo(g4, yes));
    var g5 := GenStmt(thn, MoveTo(g4, yes));
    Jumped(p, g5, join);
    Moved(p, AddJump(g5, join), join);
  }

  lemma IfElseCounted(p: Program, c: Expr, thn: Stmt, els: Stmt, g: Graph)
    requires Source.GoodExpr(p, c) && Source.GoodStmt(p, thn) && Source.GoodStmt(p, els) && AllCounted(p, g)
    ensures AllCounted(p, GenStmt(IfElse(c, thn, els), g))
    decreases IfElse(c, thn, els), 0
  {
    hide Source.GoodExpr, Source.GoodStmt, CloseCondition, AddJump;
    var (g1, yes) := NewBlock(g);
    var (g2, no) := NewBlock(g1);
    var (g3, join) := NewBlock(g2);
    SameInstructions(p, g, g3);
    hide AllCounted, NewBlock, MoveTo;
    Condition(p, c, g3, yes, no);
    var (g4, a) := GenExpr(c, g3);
    ArmsCounted(p, c, thn, els, CloseCondition(g4, a, yes, no), yes, no, join);
  }

  lemma ArmsCounted(p: Program, c: Expr, thn: Stmt, els: Stmt, g: Graph, yes: string, no: string, join: string)
    requires Source.GoodStmt(p, thn) && Source.GoodStmt(p, els) && AllCounted(p, g)
    ensures var g1 := GenStmt(thn, MoveTo(g, yes));
            var g2 := GenStmt(els, MoveTo(AddJump(g1, join), no));
            AllCounted(p, MoveTo(AddJump(g2, join), join))
    decreases IfElse(c, thn, els), 0, 0
  {
    hide Source.GoodStmt, AddJump, AllCounted, MoveTo, GenStmt;
    Moved(p, g, yes);
    StmtCounted(p, thn, MoveTo(g, yes));
    var g1 := GenStmt(thn, MoveTo(g, yes));
    Jumped(p, g1, join);
    Moved(p, AddJump(g1, join), no);
    StmtCounted(p, els, MoveTo(AddJump(g1, join), no));
    var g2 := GenStmt(els, MoveTo(AddJump(g1, join), no));
    Jumped(p, g2, join);
    Moved(p, AddJump(g2, join), join);
  }

  lemma LoopOpened(p: Program, g: Graph)
    requires AllCounted(p, g)
    ensures AllCounted(p, OpenLoop(g).0)
  {
    var (g1, header) := NewBlock(g);
    var (g2, body) := NewBlock(g1);
    var (g4, join) := NewBlock(SetTrueExit(g2, body, header));
    SameInstructions(p, g, g4);
    Jumped(p, g4, header);
    Moved(p, AddJump(g4, header), header);
  }

  lemma WhileCounted(p: Program, c: Expr, body: Stmt, g: Graph)
    requires Source.GoodExpr(p, c) && Source.GoodStmt(p, body) && AllCounted(p, g)
    ensures AllCounted(p, GenStmt(While(c, body), g))
    decreases While(c, body), 0
  {
    hide Source.GoodExpr, Source.GoodStmt, AddJump, AddBranch, OpenLoop, MoveTo;
    LoopOpened(p, g);
    var (g1, loop) := OpenLoop(g);
    Condition(p, c, g1, loop.body, loop.join);
    var (g2, a) := GenExpr(c, g1);
    var g3 := AddBranch(g2, a, loop.body, loop.join);
    Moved(p, g3, loop.body);
    StmtCounted(p, body, MoveTo(g3, loop.body));
    var g4 := GenStmt(body, MoveTo(g3, loop.body));
    Jumped(p, g4, loop.header);
    var g5 := AddJump(g4, loop.header);
    SameInstructions(p, g5, SetExits(g5, g2.current, loop.body, loop.join));
    Moved(p, SetExits(g5, g2.current, loop.body, loop.join), loop.join);
  }

  lemma {:induction false} StmtsCounted(p: Program, ss: seq<Stmt>, g: Graph)
    requires (forall s | s in ss :: Source.GoodStmt(p, s)) && AllCounted(p, g)
    ensures AllCounted(p, GenStmts(ss, g))
    decreases ss
  {
    hide AllCounted, Source.GoodStmt;
    if ss != [] {
      StmtCounted(p, ss[0], g);
      StmtsCounted(p, ss[1..], GenStmt(ss[0], g));
    }
  }

  lemma Rooted(p: Program, g: Graph, name: string, scope: set<string>)
    requires AllCounted(p, g)
    ensures AllCounted(p, AddRoot(g, name, scope))
  {
  }

  lemma {:induction false} UpToCounted(p: Program, n: nat)
    requires Source.GoodProgram(p) && n <= |p.order|
    ensures AllCounted(p, GenUpTo(p, n))
  {
    hide AllCounted, Source.GoodStmt, Source.GoodExpr, AddRoot, AddInstr;
    if n == 0 {
      EmptyCounted(p);
      Rooted(p, EMPTY_GRAPH, p.mainName, p.mainSig.locals);
      StmtsCounted(p, p.mainBody, AddRoot(EMPTY_GRAPH, p.mainName, p.mainSig.locals));
    } else {
      var name, g := p.order[n - 1], GenUpTo(p, n - 1);
      UpToCounted(p, n - 1);
      assert name in p.order;
      Rooted(p, g, name, p.methods[name].sig.locals);
      MethodCounted(p, p.methods[name], AddRoot(g, name, p.methods[name].sig.locals));
    }
  }

  lemma EmptyCounted(p: Program)
    ensures AllCounted(p, EMPTY_GRAPH)
  {
  }

  lemma MethodCounted(p: Program, m: Method, g: Graph)
    requires AllCounted(p, g) && (forall t | t in m.body :: Source.GoodStmt(p, t)) && Source.GoodExpr(p, m.result)
    ensures AllCounted(p, GenBody(m, g))
  {
    hide AllCounted, Source.GoodStmt, Source.GoodExpr, AddInstr;
    StmtsCounted(p, m.body, g);
    var g1 := GenStmts(m.body, g);
    ExprCounted(p, m.result, g1);
    OneMore(p, GenExpr(m.result, g1).0, Return(GenExpr(m.result, g1).1));
  }

  /** In the code generated for a well-formed program, every call names a method of the program and carries the number of
      its parameters. */
  lemma CallsCounted(p: Program)
    requires Source.GoodProgram(p)
    ensures forall l, t :: l in GenProgram(p).blocks && t in GenProgram(p).blocks[l].instrs && t.Invoke? ==>
              t.target in p.methods && t.argCount == |p.methods[t.target].sig.params|
  {
    hide Source.GoodProgram, GenUpTo;
    UpToCounted(p, |p.order|);
  }
}
