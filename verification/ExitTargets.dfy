/** Exits always lead to blocks of the same method and never to its root, so the parameter prologue of a root
    runs once per call; no instruction assigns to `this`, and immediates are C++ ints. */
module ExitTargets {
  import opened Ast
  import opened Tac
  import opened Names
  import opened FlowGraph
  import opened IrGeneration
  import opened GraphGrowth
  import opened WellFormed
  import opened ProgramGeneration
  import Source

  predicate Clean(t: Instr) {
    (Defines(t) ==> t.result != "this") && ImmediatesInInt(t) && (t.Jump? || t.CondJump? ==> !Source.IsRoot(t.target))
  }

  predicate AllClean(ts: seq<Instr>) {
    forall i :: 0 <= i < |ts| ==> Clean(ts[i])
  }

  /** A block that is no root, outside the blocks that were there before the method. */
  ghost predicate Target(base: set<string>, g: Graph, l: string) {
    l in g.blocks && l !in base && !Source.IsRoot(l)
  }

  ghost predicate ExitsInside(skip: set<string>, base: set<string>, g: Graph) {
    forall l, x {:trigger g.blocks[l], Target(base, g, x)} {:trigger x in Exits(g.blocks[l])} ::
      l in g.blocks && l !in skip && x in Exits(g.blocks[l]) ==> Target(base, g, x)
  }

  /** A false exit is only set together with the true one. */
  predicate TrueFirst(b: BBlock) {
    b.falseExit.To? ==> b.trueExit.To?
  }

  predicate CleanBlock(b: BBlock) {
    AllClean(b.instrs) && TrueFirst(b)
  }

  ghost predicate BlocksClean(skip: set<string>, g: Graph) {
    forall l {:trigger g.blocks[l]} :: l in g.blocks && l !in skip ==> CleanBlock(g.blocks[l])
  }

  /** The exits of all blocks but those in skip stay out of base. */
  ghost predicate Contained(skip: set<string>, base: set<string>, g: Graph) {
    base <= g.blocks.Keys && ExitsInside(skip, base, g) && BlocksClean(skip, g)
  }

  /** h has the blocks of g and new empty ones, with the same exits. */
  lemma SameExits(skip: set<string>, base: set<string>, g: Graph, h: Graph)
    requires Contained(skip, base, g) && g.blocks.Keys <= h.blocks.Keys
    requires forall l :: l in h.blocks ==> Exits(h.blocks[l]) == {} || (l in g.blocks && Exits(h.blocks[l]) == Exits(g.blocks[l]))
    requires BlocksClean(skip, h)
    ensures Contained(skip, base, h)
  {
    forall l, x | l in h.blocks && l !in skip && x in Exits(h.blocks[l])
      ensures Target(base, h, x)
    {
      assert Target(base, g, x);
    }
  }

  lemma InsideAdd(skip: set<string>, base: set<string>, g: Graph, t: Instr)
    requires Contained(skip, base, g) && Ready(g) && Clean(t)
    ensures Contained(skip, base, AddInstr(g, t))
  {
    if g.current !in skip {
      assert CleanBlock(g.blocks[g.current]);
    }
    SameExits(skip, base, g, AddInstr(g, t));
  }

  lemma InsideMove(skip: set<string>, base: set<string>, g: Graph, l: string)
    requires Contained(skip, base, g)
    ensures Contained(skip, base, MoveTo(g, l)) && Contained(skip, base, NewTemp(g).0)
  {
    SameExits(skip, base, g, MoveTo(g, l));
    SameExits(skip, base, g, NewTemp(g).0);
  }

  lemma InsideNew(skip: set<string>, base: set<string>, g: Graph)
    requires Contained(skip, base, g) && Fresh(g)
    ensures Contained(skip, base, NewBlock(g).0) && Target(base, NewBlock(g).0, NewBlock(g).1)
  {
    SameExits(skip, base, g, NewBlock(g).0);
    BlockHasNoDot(g.nextBlock);
  }

  lemma InsideSet(skip: set<string>, base: set<string>, g: Graph, l: string, t: string, f: string)
    requires Contained(skip, base, g) && l in g.blocks && Target(base, g, t)
    ensures Contained(skip, base, SetTrueExit(g, l, t))
    ensures Target(base, g, f) ==> Contained(skip, base, SetExits(g, l, t, f))
  {
    forall h | h == SetTrueExit(g, l, t) || (h == SetExits(g, l, t, f) && Target(base, g, f))
      ensures Contained(skip, base, h)
    {
      forall m, x | m in h.blocks && m !in skip && x in Exits(h.blocks[m])
        ensures Target(base, h, x)
      {
        if x != t && x != f { assert x in Exits(g.blocks[m]); }
        assert Target(base, g, x);
      }
    }
  }

  lemma InsideBranch(skip: set<string>, base: set<string>, g: Graph, a: Operand, yes: string, no: string)
    requires Contained(skip, base, g) && Ready(g) && OperandInInt(a) && !Source.IsRoot(yes) && !Source.IsRoot(no)
    ensures Contained(skip, base, AddBranch(g, a, yes, no))
  {
    AddBranchTouches(g, a, yes, no);
    var h := AddBranch(g, a, yes, no);
    hide AddBranch, Touches;
    var us := [CondJump(no, a), Jump(yes)];
    assert Clean(us[0]) && Clean(us[1]);
    forall l | l in h.blocks && l !in skip
      ensures CleanBlock(h.blocks[l])
    {
      if l == g.current {
        assert CleanBlock(Here(g));
      } else {
        assert CleanBlock(g.blocks[l]);
      }
    }
    SameExits(skip, base, g, h);
  }

  lemma InsideCondition(skip: set<string>, base: set<string>, g: Graph, a: Operand, yes: string, no: string)
    requires Contained(skip, base, g) && Ready(g) && Target(base, g, yes) && Target(base, g, no) && OperandInInt(a)
    ensures Contained(skip, base, CloseCondition(g, a, yes, no))
  {
    InsideBranch(skip, base, g, a, yes, no);
    AddBranchTouches(g, a, yes, no);
    InsideSet(skip, base, AddBranch(g, a, yes, no), g.current, yes, no);
  }

  lemma InsideJump(skip: set<string>, base: set<string>, g: Graph, l: string)
    requires Contained(skip, base, g) && Ready(g) && Target(base, g, l)
    ensures Contained(skip, base, AddJump(g, l))
  {
    InsideAdd(skip, base, g, Jump(l));
    InsideSet(skip, base, AddInstr(g, Jump(l)), g.current, l, l);
  }

  ghost predicate ArmTargets(base: set<string>, g: Graph, arms: Arms) {
    Target(base, g, arms.rhs) && OutTargets(base, g, arms)
  }

  /** The blocks that the end of a short circuit leads to. */
  ghost predicate OutTargets(base: set<string>, g: Graph, arms: Arms) {
    Target(base, g, arms.yes) && Target(base, g, arms.no) && Target(base, g, arms.join)
  }

  lemma InsideArms(skip: set<string>, base: set<string>, g: Graph)
    requires Contained(skip, base, g) && Ready(g)
    ensures Contained(skip, base, NewArms(g).0) && ArmTargets(base, NewArms(g).0, NewArms(g).1)
  {
    var g1 := NewTemp(g).0;
    var g2 := NewBlock(g1).0;
    var g3 := NewBlock(g2).0;
    var g4 := NewBlock(g3).0;
    InsideMove(skip, base, g, g.current);
    InsideNew(skip, base, g1);
    NewBlockTouches(g1);
    InsideNew(skip, base, g2);
    NewBlockTouches(g2);
    InsideNew(skip, base, g3);
    NewBlockTouches(g3);
    InsideNew(skip, base, g4);
  }

  lemma InsideOpen(skip: set<string>, base: set<string>, g: Graph, isAnd: bool, a: Operand)
    requires Contained(skip, base, g) && Ready(g) && OperandInInt(a)
    ensures var (h, arms) := OpenShortCircuit(g, isAnd, a);
            Contained(skip, base, h) && ArmTargets(base, h, arms) && arms.result != "this"
  {
    hide Contained, ArmTargets, AddBranch, SetExits, NewArms, Touches, Fresh;
    var (g1, arms) := NewArms(g);
    InsideArms(skip, base, g);
    NewArmsTouches(g);
    TempNotThis(g.nextTemp);
    ArmTargetsIn(base, g1, g1, arms);
    var (onTrue, onFalse) := if isAnd then (arms.rhs, arms.no) else (arms.yes, arms.rhs);
    var g2 := AddBranch(g1, a, onTrue, onFalse);
    InsideBranch(skip, base, g1, a, onTrue, onFalse);
    AddBranchTouches(g1, a, onTrue, onFalse);
    ArmTargetsIn(base, g1, g2, arms);
    InsideSet(skip, base, g2, g1.current, onTrue, onFalse);
    var g3 := SetExits(g2, g1.current, onTrue, onFalse);
    SetExitsTouches(g2, g1.current, onTrue, onFalse);
    ArmTargetsMore(base, g2, g3, {g1.current}, arms);
    InsideMove(skip, base, g3, arms.rhs);
    ArmTargetsMoved(base, g3, arms);
  }

  lemma ArmTargetsIn(base: set<string>, g: Graph, h: Graph, arms: Arms)
    requires ArmTargets(base, g, arms) && g.blocks.Keys <= h.blocks.Keys
    ensures ArmTargets(base, h, arms)
    ensures Target(base, h, arms.rhs) && Target(base, h, arms.yes) && Target(base, h, arms.no)
  {
  }

  lemma ArmTargetsMore(base: set<string>, g: Graph, h: Graph, w: set<string>, arms: Arms)
    requires ArmTargets(base, g, arms) && Touches(g, h, w)
    ensures ArmTargets(base, h, arms)
  {
  }

  lemma ArmTargetsMoved(base: set<string>, g: Graph, arms: Arms)
    requires ArmTargets(base, g, arms)
    ensures ArmTargets(base, MoveTo(g, arms.rhs), arms)
  {
  }

  lemma InsideResult(skip: set<string>, base: set<string>, g: Graph, value: int, arm: string, arms: Arms)
    requires Clean(Copy(Imm(value), arms.result)) && Contained(skip, base, g) && Fresh(g) && arm in g.blocks && Target(base, g, arms.join)
    ensures Contained(skip, base, GiveResult(g, value, arm, arms))
  {
    hide Contained;
    var g1 := MoveTo(g, arm);
    InsideMove(skip, base, g, arm);
    InsideAdd(skip, base, g1, Copy(Imm(value), arms.result));
    AddInstrTouches(g1, Copy(Imm(value), arms.result));
    InsideJump(skip, base, AddInstr(g1, Copy(Imm(value), arms.result)), arms.join);
  }

  lemma InsideClose(skip: set<string>, base: set<string>, h: Graph, b: Operand, arms: Arms)
    requires OperandInInt(b) && arms.result != "this"
    requires Contained(skip, base, h) && Ready(h) && OutTargets(base, h, arms) && ArmsIn(arms, h) && h.current !in {arms.yes, arms.no, arms.join}
    ensures Contained(skip, base, CloseShortCircuit(h, b, arms))
  {
    hide Contained, Touches;
    InsideBranch(skip, base, h, b, arms.yes, arms.no);
    AddBranchTouches(h, b, arms.yes, arms.no);
    var k1 := CloseRight(h, b, arms);
    InsideSet(skip, base, AddBranch(h, b, arms.yes, arms.no), arms.rhs, arms.yes, arms.no);
    CloseRightTouches(h, b, arms);
    var k2 := GiveResult(k1, 1, arms.yes, arms);
    InsideResult(skip, base, k1, 1, arms.yes, arms);
    GiveResultTouches(k1, 1, arms.yes, arms);
    InsideResult(skip, base, k2, 0, arms.no, arms);
    InsideMove(skip, base, GiveResult(k2, 0, arms.no, arms), arms.join);
  }

  lemma {:induction false} ExprInside(skip: set<string>, base: set<string>, p: Program, e: Expr, g: Graph)
    requires Source.GoodExpr(p, e)
    requires Ready(g) && Contained(skip, base, g)
    ensures OperandInInt(GenExpr(e, g).1)
    ensures Contained(skip, base, GenExpr(e, g).0)
    decreases e
  {
    hide Contained, Touches, OpenShortCircuit, CloseShortCircuit, AddInstr;
    match e
    case Binary(op, l, r) => PairInside(skip, base, p, e, l, r, g);
      var (g1, a) := GenExpr(l, g);
      var (g2, b) := GenExpr(r, g1);
      TempNotThis(g2.nextTemp);
      TempInside(skip, base, g2, Bin(op, NewTemp(g2).1, a, b));
    case ArrayAccess(l, r) => PairInside(skip, base, p, e, l, r, g);
      var (g1, a) := GenExpr(l, g);
      var (g2, b) := GenExpr(r, g1);
      TempNotThis(g2.nextTemp);
      TempInside(skip, base, g2, Access(NewTemp(g2).1, a, b));
    case Not(r) =>
      ExprGrows(r, g);
      ExprInside(skip, base, p, r, g);
      var (g1, a) := GenExpr(r, g);
      TempNotThis(g1.nextTemp);
      TempInside(skip, base, g1, NotTac(NewTemp(g1).1, a));
    case NewObject(c) =>
      TempNotThis(g.nextTemp);
      TempInside(skip, base, g, New(NewTemp(g).1, c));
    case NewArray(n) => TempFirstInside(skip, base, p, e, n, g);
    case ArrayLength(n) => TempFirstInside(skip, base, p, e, n, g);
    case And(l, r) => ShortInside(skip, base, p, e, l, r, true, g);
    case Or(l, r) => ShortInside(skip, base, p, e, l, r, false, g);
    case Call(r, c, m, args) =>
      ExprGrows(r, g);
      ExprInside(skip, base, p, r, g);
      var (g1, a) := GenExpr(r, g);
      ArgsGrow(args, g1);
      ArgsInside(skip, base, p, args, g1);
      var g2 := GenArgs(args, g1);
      TempNotThis(g2.nextTemp);
      TempInside(skip, base, g2, Invoke(NewTemp(g2).1, a, RootName(c, m), |args|));
    case _ =>
  }

  lemma TempInside(skip: set<string>, base: set<string>, g: Graph, t: Instr)
    requires Ready(g) && Contained(skip, base, g) && Clean(t)
    ensures Contained(skip, base, AddInstr(NewTemp(g).0, t))
  {
    InsideMove(skip, base, g, g.current);
    NewTempGrows(g);
    InsideAdd(skip, base, NewTemp(g).0, t);
  }

  lemma PairInside(skip: set<string>, base: set<string>, p: Program, e: Expr, l: Expr, r: Expr, g: Graph)
    requires Source.GoodExpr(p, l) && Source.GoodExpr(p, r)
    requires Ready(g) && Contained(skip, base, g) && l < e && r < e
    ensures var g2 := GenExpr(r, GenExpr(l, g).0).0;
            Contained(skip, base, g2) && Ready(g2)
    ensures OperandInInt(GenExpr(l, g).1) && OperandInInt(GenExpr(r, GenExpr(l, g).0).1)
    decreases e, 0
  {
    ExprGrows(l, g);
    ExprInside(skip, base, p, l, g);
    ExprGrows(r, GenExpr(l, g).0);
    ExprInside(skip, base, p, r, GenExpr(l, g).0);
  }

  lemma TempFirstInside(skip: set<string>, base: set<string>, p: Program, e: Expr, n: Expr, g: Graph)
    requires Source.GoodExpr(p, n)
    requires Ready(g) && Contained(skip, base, g) && (e == NewArray(n) || e == ArrayLength(n))
    ensures OperandInInt(GenExpr(e, g).1)
    ensures Contained(skip, base, GenExpr(e, g).0)
    decreases e, 0
  {
    hide Contained, Touches, AddInstr;
    var (g1, t) := NewTemp(g);
    InsideMove(skip, base, g, g.current);
    NewTempGrows(g);
    ExprGrows(n, g1);
    ExprInside(skip, base, p, n, g1);
    var (g2, a) := GenExpr(n, g1);
    TempNotThis(g.nextTemp);
    InsideAdd(skip, base, g2, if e.NewArray? then NewArr(t, a) else Length(t, a));
  }

  lemma ShortInside(skip: set<string>, base: set<string>, p: Program, e: Expr, l: Expr, r: Expr, isAnd: bool, g: Graph)
    requires Source.GoodExpr(p, l) && Source.GoodExpr(p, r)
    requires Ready(g) && Contained(skip, base, g) && e == (if isAnd then And(l, r) else Or(l, r))
    ensures OperandInInt(GenExpr(e, g).1)
    ensures Contained(skip, base, GenExpr(e, g).0)
    decreases e, 0
  {
    hide Contained, Fresh, Touches, OpenShortCircuit, CloseShortCircuit, GenExpr, Source.GoodExpr, LeftBranch;
    ShortGenerated(l, r, isAnd, g);
    ExprGrows(l, g);
    ExprInside(skip, base, p, l, g);
    var (g1, a) := GenExpr(l, g);
    OpenTouches(g1, isAnd, a);
    InsideOpen(skip, base, g1, isAnd, a);
    var (g2, arms) := OpenShortCircuit(g1, isAnd, a);
    ExprGrows(r, g2);
    ExprInside(skip, base, p, r, g2);
    var (g3, b) := GenExpr(r, g2);
    ArmsApart(g1, g2, g3, arms);
    ArmTargetsStay(base, g2, g3, arms);
    InsideClose(skip, base, g3, b, arms);
  }

  lemma ArmsApart(g: Graph, h: Graph, k: Graph, arms: Arms)
    requires Opened(g, h, arms) && Grows(h, k)
    ensures ArmsIn(arms, k) && k.current !in {arms.yes, arms.no, arms.join}
  {
  }

  lemma ArmTargetsStay(base: set<string>, g: Graph, h: Graph, arms: Arms)
    requires ArmTargets(base, g, arms) && Grows(g, h)
    ensures ArmTargets(base, h, arms)
  {
  }

  lemma {:induction false} ArgsInside(skip: set<string>, base: set<string>, p: Program, args: seq<Expr>, g: Graph)
    requires forall a :: a in args ==> Source.GoodExpr(p, a)
    requires Ready(g) && Contained(skip, base, g)
    ensures Contained(skip, base, GenArgs(args, g))
    decreases args
  {
    hide Contained, Touches, AddInstr;
    if args != [] {
      ExprGrows(args[0], g);
      ExprInside(skip, base, p, args[0], g);
      var (g1, a) := GenExpr(args[0], g);
      InsideAdd(skip, base, g1, Param(a));
      AddInstrTouches(g1, Param(a));
      ArgsInside(skip, base, p, args[1..], AddInstr(g1, Param(a)));
    }
  }

  lemma {:induction false} StmtInside(skip: set<string>, base: set<string>, p: Program, s: Stmt, g: Graph)
    requires Source.GoodStmt(p, s)
    requires Ready(g) && Contained(skip, base, g)
    ensures Contained(skip, base, GenStmt(s, g))
    decreases s
  {
    hide Contained, Touches, AddInstr, GenExpr;
    match s
    case Assign(x, e) =>
      ExprGrows(e, g);
      ExprInside(skip, base, p, e, g);
      InsideAdd(skip, base, GenExpr(e, g).0, Copy(GenExpr(e, g).1, x));
    case Print(e) =>
      ExprGrows(e, g);
      ExprInside(skip, base, p, e, g);
      InsideAdd(skip, base, GenExpr(e, g).0, PrintTac(GenExpr(e, g).1));
    case ArrayAssign(x, index, e) =>
      PairInside(skip, base, p, ArrayAccess(index, e), index, e, g);
      var (g1, i) := GenExpr(index, g);
      var (g2, a) := GenExpr(e, g1);
      InsideAdd(skip, base, g2, ArrayCopy(x, i, a));
    case If(c, thn) => IfInside(skip, base, p, c, thn, g);
    case IfElse(c, thn, els) => IfElseInside(skip, base, p, c, thn, els, g);
    case While(c, body) => WhileInside(skip, base, p, c, body, g);
    case Block(ss) => StmtsInside(skip, base, p, ss, g);
  }

  lemma {:induction false} StmtsInside(skip: set<string>, base: set<string>, p: Program, ss: seq<Stmt>, g: Graph)
    requires forall s :: s in ss ==> Source.GoodStmt(p, s)
    requires Ready(g) && Contained(skip, base, g)
    ensures Contained(skip, base, GenStmts(ss, g))
    decreases ss
  {
    hide Contained, GenStmt;
    if ss != [] {
      StmtGrows(ss[0], g);
      StmtInside(skip, base, p, ss[0], g);
      StmtsInside(skip, base, p, ss[1..], GenStmt(ss[0], g));
    }
  }

  /** Two new waiting blocks, as targets. */
  lemma InsideTwo(skip: set<string>, base: set<string>, g: Graph)
    requires Ready(g) && Contained(skip, base, g)
    ensures var (g1, yes) := NewBlock(g);
            var (g2, no) := NewBlock(g1);
            Contained(skip, base, g2) && Target(base, g2, yes) && Target(base, g2, no)
  {
    InsideNew(skip, base, g);
    NewBlockTouches(g);
    InsideNew(skip, base, NewBlock(g).0);
  }

  lemma InsideThree(skip: set<string>, base: set<string>, g: Graph)
    requires Ready(g) && Contained(skip, base, g)
    ensures var (g1, yes) := NewBlock(g);
            var (g2, no) := NewBlock(g1);
            var (g3, join) := NewBlock(g2);
            Contained(skip, base, g3) && Target(base, g3, yes) && Target(base, g3, no) && Target(base, g3, join)
  {
    InsideTwo(skip, base, g);
    NewBlockTouches(g);
    NewBlockTouches(NewBlock(g).0);
    var g2 := NewBlock(NewBlock(g).0).0;
    InsideNew(skip, base, g2);
    NewBlockTouches(g2);
  }

  /** A condition from h, then its branch; l is any target. */
  lemma InsideTest(skip: set<string>, base: set<string>, p: Program, g: Graph, c: Expr, h: Graph, yes: string, no: string, l: string)
    requires Source.GoodExpr(p, c)
    requires Ready(h) && Contained(skip, base, h) && Target(base, h, yes) && Target(base, h, no) && Target(base, h, l)
    ensures var (k, a) := GenExpr(c, h);
            var b := CloseCondition(k, a, yes, no);
            Contained(skip, base, b) && Target(base, b, yes) && Target(base, b, no) && Target(base, b, l)
  {
    hide Contained, Fresh;
    var (k, a) := GenExpr(c, h);
    ExprGrows(c, h);
    ExprInside(skip, base, p, c, h);
    InsideCondition(skip, base, k, a, yes, no);
    CloseConditionTouches(k, a, yes, no);
  }

  /** An arm from the waiting block from, then a jump to l; o is any target. */
  lemma InsideArm(skip: set<string>, base: set<string>, p: Program, whole: Stmt, s: Stmt, h: Graph, from: string, l: string, o: string)
    requires Source.GoodStmt(p, s)
    requires s < whole && Ready(MoveTo(h, from)) && Contained(skip, base, h) && Target(base, h, l) && Target(base, h, o)
    ensures var k := GenStmt(s, MoveTo(h, from));
            Contained(skip, base, k) && Target(base, k, l) && Contained(skip, base, AddJump(k, l)) && Target(base, AddJump(k, l), o)
    decreases whole, 0
  {
    hide Contained, Fresh;
    var m := MoveTo(h, from);
    InsideMove(skip, base, h, from);
    StmtGrows(s, m);
    StmtInside(skip, base, p, s, m);
    var k := GenStmt(s, m);
    assert Target(base, m, l) && Target(base, m, o);
    InsideJump(skip, base, k, l);
    AddJumpTouches(k, l);
  }

  lemma IfInside(skip: set<string>, base: set<string>, p: Program, c: Expr, thn: Stmt, g: Graph)
    requires Source.GoodExpr(p, c) && Source.GoodStmt(p, thn)
    requires Ready(g) && Contained(skip, base, g)
    ensures Contained(skip, base, GenStmt(If(c, thn), g))
    decreases If(c, thn), 1
  {
    hide Contained, Touches, Fresh, Awaits, IfFinished;
    var v := IfStages(c, thn, g);
    IfLast(c, thn, g);
    InsideTwo(skip, base, g);
    InsideTest(skip, base, p, g, c, v.start, v.yes, v.join, v.join);
    InsideArm(skip, base, p, If(c, thn), thn, v.branched, v.yes, v.join, v.join);
    InsideMove(skip, base, AddJump(v.thenDone, v.join), v.join);
  }

  lemma IfElseInside(skip: set<string>, base: set<string>, p: Program, c: Expr, thn: Stmt, els: Stmt, g: Graph)
    requires Source.GoodExpr(p, c) && Source.GoodStmt(p, thn) && Source.GoodStmt(p, els)
    requires Ready(g) && Contained(skip, base, g)
    ensures Contained(skip, base, GenStmt(IfElse(c, thn, els), g))
    decreases IfElse(c, thn, els), 1
  {
    hide Contained, Touches, Fresh, Awaits, IfElseFinished, Source.GoodStmt, Source.GoodExpr, GenExpr, GenStmt, Target, AddJump, CloseCondition;
    var v := IfElseStages(c, thn, els, g);
    IfElseLast(c, thn, els, g);
    InsideThree(skip, base, g);
    InsideTest(skip, base, p, g, c, v.start, v.yes, v.no, v.join);
    InsideArm(skip, base, p, IfElse(c, thn, els), thn, v.branched, v.yes, v.join, v.join);
    InsideArm(skip, base, p, IfElse(c, thn, els), els, AddJump(v.thenDone, v.join), v.no, v.join, v.join);
    InsideMove(skip, base, AddJump(v.elseDone, v.join), v.join);
  }

  lemma InsideLoop(skip: set<string>, base: set<string>, g: Graph)
    requires Ready(g) && Contained(skip, base, g)
    ensures var (h, loop) := OpenLoop(g);
            Contained(skip, base, h) && Target(base, h, loop.header) && Target(base, h, loop.body) && Target(base, h, loop.join)
  {
    hide Contained;
    var (g1, header) := NewBlock(g);
    InsideNew(skip, base, g);
    NewBlockAwaits(g);
    var (g2, body) := NewBlock(g1);
    InsideNew(skip, base, g1);
    NewBlockAwaits(g1);
    var g3 := SetTrueExit(g2, body, header);
    assert Target(base, g2, header);
    InsideSet(skip, base, g2, body, header, header);
    SetExitsTouches(g2, body, header, header);
    var (g4, join) := NewBlock(g3);
    InsideNew(skip, base, g3);
    NewBlockAwaits(g3);
    assert Target(base, g4, header) && Target(base, g4, body);
    InsideJump(skip, base, g4, header);
    InsideMove(skip, base, AddJump(g4, header), header);
  }

  lemma WhileInside(skip: set<string>, base: set<string>, p: Program, c: Expr, body: Stmt, g: Graph)
    requires Source.GoodExpr(p, c) && Source.GoodStmt(p, body)
    requires Ready(g) && Contained(skip, base, g)
    ensures Contained(skip, base, GenStmt(While(c, body), g))
    decreases While(c, body), 1
  {
    hide Contained, Touches, Fresh, Awaits, OpenLoop, AddJump;
    var v := WhileStages(c, body, g);
    WhileLast(c, body, g);
    InsideLoop(skip, base, g);
    ExprInside(skip, base, p, c, v.start);
    LoopTargets(base, g, v);
    InsideBranch(skip, base, v.tested, v.cond, v.loop.body, v.loop.join);
    InsideArm(skip, base, p, While(c, body), body, v.branched, v.loop.body, v.loop.header, v.loop.body);
    LoopTargetsAfter(base, v);
    var j := AddJump(v.bodyDone, v.loop.header);
    InsideSet(skip, base, j, v.tested.current, v.loop.body, v.loop.join);
    InsideMove(skip, base, SetExits(j, v.tested.current, v.loop.body, v.loop.join), v.loop.join);
  }

  lemma LoopTargets(base: set<string>, g: Graph, v: WhileGraphs)
    requires LoopTested(g, v) && Target(base, v.start, v.loop.header) && Target(base, v.start, v.loop.body) && Target(base, v.start, v.loop.join)
    ensures Target(base, v.branched, v.loop.header) && Target(base, v.branched, v.loop.body) && Target(base, v.branched, v.loop.join)
  {
  }

  lemma LoopTargetsAfter(base: set<string>, v: WhileGraphs)
    requires Target(base, v.branched, v.loop.body) && Target(base, v.branched, v.loop.join) && v.tested.current in v.branched.blocks
    requires Grows(MoveTo(v.branched, v.loop.body), v.bodyDone) && Ready(v.bodyDone)
    ensures var j := AddJump(v.bodyDone, v.loop.header);
            Target(base, j, v.loop.body) && Target(base, j, v.loop.join) && v.tested.current in j.blocks
  {
    AddJumpTouches(v.bodyDone, v.loop.header);
    assert v.loop.join in MoveTo(v.branched, v.loop.body).blocks;
  }

  // ----- whole programs -----

  lemma RootInside(g: Graph, name: string, scope: set<string>)
    requires name !in g.blocks
    ensures Contained(g.blocks.Keys, g.blocks.Keys, AddRoot(g, name, scope))
  {
  }

  lemma BodyInside(skip: set<string>, base: set<string>, p: Program, m: Method, g: Graph)
    requires Ready(g) && Contained(skip, base, g)
    requires (forall s :: s in m.body ==> Source.GoodStmt(p, s)) && Source.GoodExpr(p, m.result)
    ensures Contained(skip, base, GenBody(m, g))
  {
    hide Contained;
    var g1 := GenStmts(m.body, g);
    StmtsGrow(m.body, g);
    StmtsInside(skip, base, p, m.body, g);
    var (g2, r) := GenExpr(m.result, g1);
    ExprGrows(m.result, g1);
    ExprInside(skip, base, p, m.result, g1);
    InsideAdd(skip, base, g2, Return(r));
  }

  /** The root of the method each block belongs to. */
  function OwnersUpTo(p: Program, n: nat): map<string, string>
    requires n <= |p.order|
  {
    if n == 0 then map l | l in GenMain(p).blocks :: p.mainName
    else
      var before := OwnersUpTo(p, n - 1);
      map l | l in GenUpTo(p, n).blocks :: if l in before then before[l] else p.order[n - 1]
  }

  /** Every exit leads to a block of the same method that is not a root. */
  ghost predicate Owned(blocks: map<string, BBlock>, roots: seq<string>, owner: map<string, string>) {
    && owner.Keys == blocks.Keys
    && (forall r {:trigger r in roots} :: r in roots ==> r in owner && owner[r] == r)
    && (forall l, x {:trigger owner[x], Exits(blocks[l])} {:trigger x in Exits(blocks[l])} ::
          l in blocks && x in Exits(blocks[l]) ==> x in blocks && owner[x] == owner[l] && x !in roots)
  }

  ghost predicate AllRoots(roots: seq<string>) {
    forall r :: r in roots ==> Source.IsRoot(r)
  }

  lemma MainOwned(p: Program)
    requires Source.GoodProgram(p)
    ensures Owned(GenMain(p).blocks, [p.mainName], OwnersUpTo(p, 0)) && GenMain(p).roots == [p.mainName]
    ensures BlocksClean({}, GenMain(p))
  {
    hide Source.GoodStmt, Fresh;
    MainGrows(p);
    RootInside(EMPTY_GRAPH, p.mainName, p.mainSig.locals);
    StmtsInside({}, {}, p, p.mainBody, MainStart(p));
    var g := GenMain(p);
    forall l, x | l in g.blocks && x in Exits(g.blocks[l])
      ensures x in g.blocks && x !in [p.mainName]
    {
      assert Target({}, g, x);
    }
  }

  /** In the graph of a program the methods' blocks are apart, every exit stays inside its method and leads to
      no root, and every instruction is clean. */
  lemma {:induction false} ProgramOwned(p: Program, n: nat)
    requires Source.GoodProgram(p) && n <= |p.order|
    ensures GenUpTo(p, n).roots == [p.mainName] + p.order[..n] && AllRoots(GenUpTo(p, n).roots)
    ensures Owned(GenUpTo(p, n).blocks, GenUpTo(p, n).roots, OwnersUpTo(p, n))
    ensures BlocksClean({}, GenUpTo(p, n))
  {
    hide Source.GoodStmt, Source.GoodExpr, Owned, BlocksClean, AllRoots, GenBody;
    if n == 0 {
      MainOwned(p);
      assert [p.mainName] + p.order[..0] == [p.mainName];
    } else {
      ProgramOwned(p, n - 1);
      NextOwned(p, n - 1);
      assert [p.mainName] + p.order[..n] == [p.mainName] + p.order[..n - 1] + [p.order[n - 1]];
    }
    ProgramRoots(p, n);
  }

  lemma ProgramRoots(p: Program, n: nat)
    requires Source.GoodProgram(p) && n <= |p.order|
    ensures AllRoots([p.mainName] + p.order[..n])
  {
    hide Source.GoodStmt, Source.GoodExpr;
    forall r | r in p.order
      ensures Source.IsRoot(r)
    {
      assert r in p.methods;
    }
  }

  lemma NextOwned(p: Program, i: nat)
    requires Source.GoodProgram(p) && i < |p.order|
    requires Owned(GenUpTo(p, i).blocks, GenUpTo(p, i).roots, OwnersUpTo(p, i)) && AllRoots(GenUpTo(p, i).roots)
    requires BlocksClean({}, GenUpTo(p, i))
    ensures Owned(GenUpTo(p, i + 1).blocks, GenUpTo(p, i + 1).roots, OwnersUpTo(p, i + 1)) && BlocksClean({}, GenUpTo(p, i + 1))
    ensures GenUpTo(p, i + 1).roots == GenUpTo(p, i).roots + [p.order[i]]
  {
    hide Source.GoodStmt, Source.GoodExpr, Owned, BlocksClean, GenBody, Contained, AllRoots, Accounted, GenUpTo, Touches, Fresh, NewIn, Keeps,
      Source.GoodSignature, OwnersUpTo;
    var g, h, name := GenUpTo(p, i), GenUpTo(p, i + 1), p.order[i];
    UpToGrows(p, i);
    UpToGrows(p, i + 1);
    RootIsNew(p, g, i);
    var start := AddRoot(g, name, p.methods[name].sig.locals);
    RootInside(g, name, p.methods[name].sig.locals);
    BodyInside(g.blocks.Keys, g.blocks.Keys, p, p.methods[name], start);
    GrownRoots(start, h);
    assert Source.IsRoot(name);
    var owner' := OwnersUpTo(p, i + 1);
    NextOwners(p, i);
    OwnedMore(g, h, OwnersUpTo(p, i), owner', name);
  }

  lemma GrownRoots(g: Graph, h: Graph)
    requires Grows(g, h)
    ensures h.roots == g.roots && g.blocks.Keys <= h.blocks.Keys
  {
  }

  lemma NextOwners(p: Program, i: nat)
    requires i < |p.order|
    ensures var owner, owner', h := OwnersUpTo(p, i), OwnersUpTo(p, i + 1), GenUpTo(p, i + 1);
            owner'.Keys == h.blocks.Keys && forall l :: l in h.blocks ==> owner'[l] == if l in owner then owner[l] else p.order[i]
  {
  }

  lemma OwnedMore(g: Graph, h: Graph, owner: map<string, string>, owner': map<string, string>, name: string)
    requires Owned(g.blocks, g.roots, owner) && BlocksClean({}, g) && Keeps(g, h) && name !in g.blocks && name in h.blocks
    requires AllRoots(g.roots) && Source.IsRoot(name) && h.roots == g.roots + [name] && Contained(g.blocks.Keys, g.blocks.Keys, h)
    requires owner'.Keys == h.blocks.Keys && forall l :: l in h.blocks ==> owner'[l] == if l in owner then owner[l] else name
    ensures Owned(h.blocks, h.roots, owner') && BlocksClean({}, h)
  {
    forall l, x | l in h.blocks && x in Exits(h.blocks[l])
      ensures x in h.blocks && owner'[x] == owner'[l] && x !in h.roots
    {
      if l in g.blocks {
        assert x in Exits(g.blocks[l]);
        assert x in g.blocks;
      } else {
        assert Target(g.blocks.Keys, h, x);
      }
    }
    forall l | l in h.blocks
      ensures CleanBlock(h.blocks[l])
    {
      if l in g.blocks { assert CleanBlock(g.blocks[l]); }
    }
  }

  // ----- agreement for whole programs -----

  ghost predicate AllAgree(g: Graph) {
    forall l {:trigger g.blocks[l]} :: l in g.blocks ==> Agrees(g.blocks[l])
  }

  ghost predicate NoShortCircuitInBody(m: Method) {
    (forall s :: s in m.body ==> NoShortCircuitInRightOperandStmt(s)) && NoShortCircuitInRightOperand(m.result)
  }

  /** No right operand of a short-circuit operator contains another one, anywhere in main or the first n methods. */
  ghost predicate NoShortCircuitUpTo(p: Program, n: nat)
    requires n <= |p.order|
  {
    && (forall s :: s in p.mainBody ==> NoShortCircuitInRightOperandStmt(s))
    && forall i :: 0 <= i < n && p.order[i] in p.methods ==> NoShortCircuitInBody(p.methods[p.order[i]])
  }

  ghost predicate AllShaped(blocks: map<string, BBlock>) {
    forall l {:trigger blocks[l]} :: l in blocks ==> Shaped(blocks[l])
  }

  lemma OpenAgrees(b: BBlock)
    requires OpenBlock(b) && b.trueExit == None
    ensures Agrees(b)
  {
  }

  lemma ReturnAgrees(b: BBlock, o: Operand)
    requires OpenBlock(b) && b.trueExit == None
    ensures Agrees(b.(instrs := b.instrs + [Return(o)]))
  {
    var ts := b.instrs + [Return(o)];
    assert ts[..|ts| - 1] == b.instrs;
  }

  lemma MainAgrees(p: Program)
    requires Source.GoodProgram(p)
    ensures AllAgree(GenMain(p)) <==> forall s :: s in p.mainBody ==> NoShortCircuitInRightOperandStmt(s)
    ensures AllShaped(GenMain(p).blocks)
  {
    hide Source.GoodProgram, Touches, NoShortCircuitInRightOperandStmt;
    MainGrows(p);
    StmtsAgree(p.mainBody, MainStart(p));
    var g := GenMain(p);
    OpenAgrees(Here(g));
    forall l | NewAgree(MainStart(p), g) && l in g.blocks
      ensures Agrees(g.blocks[l])
    {
      assert NewSince(MainStart(p), l);
    }
    assert AllAgree(g) ==> NewAgree(MainStart(p), g);
    AgreesShaped(Here(g));
    forall l | l in g.blocks && l != g.current
      ensures Shaped(g.blocks[l])
    {
      assert NewSince(MainStart(p), l);
    }
  }

  lemma BodyAgrees(m: Method, g: Graph)
    requires Ready(g) && Here(g) == EMPTY_BLOCK
    ensures var h := GenBody(m, g);
            (forall l {:trigger h.blocks[l]} :: l in h.blocks && NewSince(g, l) ==> Agrees(h.blocks[l])) <==> NoShortCircuitInBody(m)
    ensures forall l :: l in GenBody(m, g).blocks && NewSince(g, l) ==> Shaped(GenBody(m, g).blocks[l])
  {
    hide Touches, NoShortCircuitInRightOperandStmt, NoShortCircuitInRightOperand, OpenBlock, Agrees, AddInstr, StaysOpen, NewAgree, NewSince, Shaped;
    var g1 := GenStmts(m.body, g);
    EmptyOpen(g);
    StmtsGrow(m.body, g);
    StmtsAgree(m.body, g);
    OpenStays(g, g1);
    var (g2, r) := GenExpr(m.result, g1);
    ExprGrows(m.result, g1);
    ExprAgrees(m.result, g1);
    GrowsTrans(g, g1, g2);
    StaysOpenTrans(g, g1, g2);
    NewAgreeTrans(g, g1, g2);
    ReturnBlock(g, g2, r);
    ReturnStep(g, g2, r);
    assert GenBody(m, g) == AddInstr(g2, Return(r));
    assert NewAgree(g, g2) <==> NoShortCircuitInBody(m);
  }

  lemma ReturnBlock(g: Graph, h: Graph, r: Operand)
    requires StaysOpen(g, h) && Here(g) == EMPTY_BLOCK
    ensures h.current in AddInstr(h, Return(r)).blocks && Agrees(AddInstr(h, Return(r)).blocks[h.current])
  {
    ReturnAgrees(Here(h), r);
  }

  lemma ReturnStep(g: Graph, h: Graph, r: Operand)
    requires Grows(g, h) && Ready(h)
    requires h.current in AddInstr(h, Return(r)).blocks && Agrees(AddInstr(h, Return(r)).blocks[h.current])
    ensures var k := AddInstr(h, Return(r));
            (forall l {:trigger k.blocks[l]} :: l in k.blocks && NewSince(g, l) ==> Agrees(k.blocks[l])) <==> NewAgree(g, h)
    ensures StaysOpen(g, h) ==> forall l :: l in AddInstr(h, Return(r)).blocks && NewSince(g, l) ==> Shaped(AddInstr(h, Return(r)).blocks[l])
  {
    hide Agrees, Touches, Shaped;
    var k := AddInstr(h, Return(r));
    AgreesShaped(k.blocks[h.current]);
    assert forall l :: l in k.blocks && l != h.current ==> k.blocks[l] == h.blocks[l];
    forall l | (forall m {:trigger k.blocks[m]} :: m in k.blocks && NewSince(g, m) ==> Agrees(k.blocks[m]))
               && l in h.blocks && l != h.current && NewSince(g, l)
      ensures Agrees(h.blocks[l])
    {
      assert k.blocks[l] == h.blocks[l];
    }
  }

  /** Exactly when: the exits of every block agree with its labels if and only if no short-circuit operator
      stands inside the right operand of another. */
  lemma {:induction false} ProgramAgrees(p: Program, n: nat)
    requires Source.GoodProgram(p) && n <= |p.order|
    ensures AllAgree(GenUpTo(p, n)) <==> NoShortCircuitUpTo(p, n)
  {
    hide AllAgree, Source.GoodProgram, NoShortCircuitInRightOperandStmt, NoShortCircuitInBody;
    if n == 0 {
      MainAgrees(p);
    } else {
      ProgramAgrees(p, n - 1);
      OneMoreAgrees(p, n - 1);
    }
  }

  lemma OneMoreAgrees(p: Program, i: nat)
    requires Source.GoodProgram(p) && i < |p.order|
    ensures p.order[i] in p.methods
    ensures AllAgree(GenUpTo(p, i + 1)) <==> AllAgree(GenUpTo(p, i)) && NoShortCircuitInBody(p.methods[p.order[i]])
  {
    hide AllAgree, Source.GoodProgram, NoShortCircuitInBody, Agrees, GenUpTo, GenBody, Accounted, Keeps, NewSince;
    UpToGrows(p, i + 1);
    UpToGrows(p, i);
    RootIsNew(p, GenUpTo(p, i), i);
    var m := p.methods[p.order[i]];
    BodyAgrees(m, AddRoot(GenUpTo(p, i), p.order[i], m.sig.locals));
    MethodAgrees(p, i);
  }

  lemma MethodAgrees(p: Program, i: nat)
    requires Source.GoodProgram(p) && i < |p.order| && p.order[i] in p.methods && MethodGrows(p, i) && Keeps(GenUpTo(p, i), GenUpTo(p, i + 1))
    requires p.order[i] !in GenUpTo(p, i).blocks
    ensures var start := AddRoot(GenUpTo(p, i), p.order[i], p.methods[p.order[i]].sig.locals);
            var h := GenUpTo(p, i + 1);
            AllAgree(h) <==> AllAgree(GenUpTo(p, i)) && forall l {:trigger h.blocks[l]} :: l in h.blocks && NewSince(start, l) ==> Agrees(h.blocks[l])
  {
  }

  // ----- the shape of blocks -----

  /** Whatever the program, its blocks are straight up to a final branch, jump or return, and those that have exits end
      in a branch or a jump. */
  lemma {:induction false} ProgramShaped(p: Program, n: nat)
    requires Source.GoodProgram(p) && n <= |p.order|
    ensures AllShaped(GenUpTo(p, n).blocks)
  {
    hide AllShaped, Source.GoodProgram;
    if n == 0 {
      MainAgrees(p);
    } else {
      ProgramShaped(p, n - 1);
      OneMoreShaped(p, n - 1);
    }
  }

  lemma OneMoreShaped(p: Program, i: nat)
    requires Source.GoodProgram(p) && i < |p.order| && AllShaped(GenUpTo(p, i).blocks)
    ensures AllShaped(GenUpTo(p, i + 1).blocks)
  {
    hide Source.GoodProgram, NoShortCircuitInBody, Agrees, Shaped, GenUpTo, GenBody, Accounted;
    UpToGrows(p, i + 1);
    UpToGrows(p, i);
    RootIsNew(p, GenUpTo(p, i), i);
    var m := p.methods[p.order[i]];
    BodyAgrees(m, AddRoot(GenUpTo(p, i), p.order[i], m.sig.locals));
    assert GenUpTo(p, i + 1) == GenBody(m, AddRoot(GenUpTo(p, i), p.order[i], m.sig.locals)) by { StepIsBody(p, i); }
  }

  lemma StepIsBody(p: Program, i: nat)
    requires i < |p.order| && p.order[i] in p.methods
    ensures GenUpTo(p, i + 1) == GenBody(p.methods[p.order[i]], AddRoot(GenUpTo(p, i), p.order[i], p.methods[p.order[i]].sig.locals))
  {
  }
}
