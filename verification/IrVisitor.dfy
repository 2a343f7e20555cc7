/** The visitor that generates three-address code (src/ir/IRGenerationVisitor.cpp:211-784), writing into the
    compiler's graph. */
module IrVisitor {
  import opened Ast
  import opened Tac
  import opened Names
  import opened FlowGraph
  import opened IrGeneration

  class IrGenerationVisitor {
    const graph: Cfg

    constructor (graph: Cfg)
      ensures this.graph == graph
    {
      this.graph := graph;
    }

    /** The operand an expression leaves its value in. */
    method VisitExpr(e: Expr) returns (value: Operand)
      modifies graph
      ensures (graph.Model(), value) == GenExpr(e, old(graph.Model()))
      decreases e
    {
      hide OpenShortCircuit, CloseShortCircuit, AddInstr, NewTemp, GenArgs, RootName;
      match e
      case IntLit(n) => value := Imm(n);
      case BoolLit(b) => value := Imm(if b then 1 else 0);
      case Ident(x) => value := Name(x);
      case This => value := Name("this");
      case Binary(op, l, r) =>
        var a := VisitExpr(l);
        var b := VisitExpr(r);
        var t := graph.GetTemporaryName();
        graph.Add(Bin(op, t, a, b));
        value := Name(t);
      case Not(r) =>
        var a := VisitExpr(r);
        var t := graph.GetTemporaryName();
        graph.Add(NotTac(t, a));
        value := Name(t);
      case And(l, r) =>
        var a := VisitExpr(l);
        var arms := Open(true, a);
        var b := VisitExpr(r);
        Close(b, arms);
        value := Name(arms.result);
      case Or(l, r) =>
        var a := VisitExpr(l);
        var arms := Open(false, a);
        var b := VisitExpr(r);
        Close(b, arms);
        value := Name(arms.result);
      case NewObject(c) =>
        var t := graph.GetTemporaryName();
        graph.Add(New(t, c));
        value := Name(t);
      case NewArray(length) =>
        var t := graph.GetTemporaryName();
        var a := VisitExpr(length);
        graph.Add(NewArr(t, a));
        value := Name(t);
      case ArrayAccess(arr, index) =>
        var a := VisitExpr(arr);
        var i := VisitExpr(index);
        var t := graph.GetTemporaryName();
        graph.Add(Access(t, a, i));
        value := Name(t);
      case ArrayLength(arr) =>
        var t := graph.GetTemporaryName();
        var a := VisitExpr(arr);
        graph.Add(Length(t, a));
        value := Name(t);
      case Call(receiver, c, m, args) =>
        var r := VisitExpr(receiver);
        VisitArgs(e, args);
        var t := graph.GetTemporaryName();
        graph.Add(Invoke(t, r, RootName(c, m), |args|));
        value := Name(t);
    }

    /** Each argument is evaluated and passed, in order. */
    method VisitArgs(call: Expr, args: seq<Expr>)
      requires call.Call? && args == call.args
      modifies graph
      ensures graph.Model() == GenArgs(args, old(graph.Model()))
      decreases call, 0
    {
      hide AddInstr, GenExpr;
      ghost var g := graph.Model();
      for i := 0 to |args|
        invariant GenArgs(args[i..], graph.Model()) == GenArgs(args, g)
      {
        assert args[i..][1..] == args[i + 1..];
        var a := VisitExpr(args[i]);
        graph.Add(Param(a));
      }
    }

    /** Branches to onFalse when the condition is 0, otherwise to onTrue. */
    method Branch(cond: Operand, onTrue: string, onFalse: string)
      modifies graph
      ensures graph.Model() == AddBranch(old(graph.Model()), cond, onTrue, onFalse)
    {
      graph.Add(CondJump(onFalse, cond));
      graph.Add(Jump(onTrue));
    }

    method Open(isAnd: bool, a: Operand) returns (arms: Arms)
      modifies graph
      ensures (graph.Model(), arms) == OpenShortCircuit(old(graph.Model()), isAnd, a)
    {
      hide AddBranch, SetExits, NewBlock, NewTemp;
      var t := graph.GetTemporaryName();
      var rhs := graph.MakeBlock();
      var yes := graph.MakeBlock();
      var no := graph.MakeBlock();
      var join := graph.MakeBlock();
      arms := Arms(t, rhs, yes, no, join);
      var entry := graph.current;
      var onTrue, onFalse := if isAnd then rhs else yes, if isAnd then no else rhs;
      Branch(a, onTrue, onFalse);
      graph.SetBlocks(entry, onTrue, onFalse);
      graph.SetCurrent(rhs);
    }

    method Close(b: Operand, arms: Arms)
      modifies graph
      ensures graph.Model() == CloseShortCircuit(old(graph.Model()), b, arms)
    {
      hide AddBranch, SetExits, GiveResult;
      Branch(b, arms.yes, arms.no);
      graph.SetBlocks(arms.rhs, arms.yes, arms.no);
      Give(1, arms.yes, arms);
      Give(0, arms.no, arms);
      graph.SetCurrent(arms.join);
    }

    method Give(value: int, arm: string, arms: Arms)
      modifies graph
      ensures graph.Model() == GiveResult(old(graph.Model()), value, arm, arms)
    {
      hide AddInstr, SetTrueExit;
      graph.SetCurrent(arm);
      graph.Add(Copy(Imm(value), arms.result));
      graph.Add(Jump(arms.join));
      graph.SetTrueBlock(arm, arms.join);
      AddKeepsCurrent(MoveTo(old(graph.Model()), arm), Copy(Imm(value), arms.result));
    }

    /** The statement's jump to l, after which the current block leads there. */
    method JumpTo(l: string)
      modifies graph
      ensures graph.Model() == AddJump(old(graph.Model()), l)
    {
      hide AddInstr, SetTrueExit;
      graph.Add(Jump(l));
      AddKeepsCurrent(old(graph.Model()), Jump(l));
      graph.SetTrueBlock(graph.current, l);
    }

    /** The same with the exit set before the jump is added, as at the end of a loop body and in front of a
        loop. */
    method LeadTo(l: string)
      modifies graph
      ensures graph.Model() == AddJump(old(graph.Model()), l)
    {
      graph.SetTrueBlock(graph.current, l);
      graph.Add(Jump(l));
      assert graph.blocks == AddJump(old(graph.Model()), l).blocks;
    }

    method VisitStmt(s: Stmt)
      modifies graph
      ensures graph.Model() == GenStmt(s, old(graph.Model()))
      decreases s
    {
      hide GenExpr, AddInstr, AddJump, AddBranch, SetExits, SetTrueExit, NewBlock;
      match s
      case Assign(x, e) =>
        var a := VisitExpr(e);
        graph.Add(Copy(a, x));
      case ArrayAssign(x, index, e) =>
        var i := VisitExpr(index);
        var a := VisitExpr(e);
        graph.Add(ArrayCopy(x, i, a));
      case Print(e) =>
        var a := VisitExpr(e);
        graph.Add(PrintTac(a));
      case If(c, thn) =>
        var yes := graph.MakeBlock();
        var join := graph.MakeBlock();
        var a := VisitExpr(c);
        var tested := graph.current;
        Branch(a, yes, join);
        graph.SetBlocks(tested, yes, join);
        graph.SetCurrent(yes);
        VisitStmt(thn);
        JumpTo(join);
        graph.SetCurrent(join);
      case IfElse(c, thn, els) =>
        var yes := graph.MakeBlock();
        var no := graph.MakeBlock();
        var join := graph.MakeBlock();
        var a := VisitExpr(c);
        var tested := graph.current;
        Branch(a, yes, no);
        graph.SetBlocks(tested, yes, no);
        graph.SetCurrent(yes);
        VisitStmt(thn);
        JumpTo(join);
        graph.SetCurrent(no);
        VisitStmt(els);
        JumpTo(join);
        graph.SetCurrent(join);
      case While(c, body) =>
        var loop := Enter();
        var a := VisitExpr(c);
        var tested := graph.current;
        Branch(a, loop.body, loop.join);
        graph.SetCurrent(loop.body);
        VisitStmt(body);
        LeadTo(loop.header);
        graph.SetBlocks(tested, loop.body, loop.join);
        graph.SetCurrent(loop.join);
      case Block(ss) => VisitStmts(s, ss);
    }

    method Enter() returns (loop: Loop)
      modifies graph
      ensures (graph.Model(), loop) == OpenLoop(old(graph.Model()))
    {
      hide NewBlock, AddJump, SetTrueExit;
      var header := graph.MakeBlock();
      var body := graph.MakeBlock();
      graph.SetTrueBlock(body, header);
      var join := graph.MakeBlock();
      LeadTo(header);
      graph.SetCurrent(header);
      loop := Loop(header, body, join);
    }

    method VisitStmts(whole: Stmt, ss: seq<Stmt>)
      requires whole == Block(ss)
      modifies graph
      ensures graph.Model() == GenStmts(ss, old(graph.Model()))
      decreases whole, 0
    {
      hide GenStmt;
      ghost var g := graph.Model();
      for i := 0 to |ss|
        invariant GenStmts(ss[i..], graph.Model()) == GenStmts(ss, g)
      {
        assert ss[i..][1..] == ss[i + 1..];
        VisitStmt(ss[i]);
      }
    }

    method VisitMethod(name: string, m: Method)
      modifies graph
      ensures graph.Model() == GenMethod(name, m, old(graph.Model()))
    {
      hide GenExpr, AddInstr, GenStmts;
      graph.AddMethodRoot(name, m.sig.locals);
      VisitStmts(Block(m.body), m.body);
      var r := VisitExpr(m.result);
      graph.Add(Return(r));
    }
  }

  lemma AddKeepsCurrent(g: Graph, t: Instr)
    ensures AddInstr(g, t).current == g.current
  {
  }

  /** Main first, then the methods in the order they are visited. */
  method GenerateIr(p: Program) returns (graph: Cfg)
    ensures fresh(graph) && graph.Model() == GenProgram(p)
  {
    hide GenStmts, GenMethod;
    graph := new Cfg();
    var visitor := new IrGenerationVisitor(graph);
    graph.AddMethodRoot(p.mainName, p.mainSig.locals);
    visitor.VisitStmts(Block(p.mainBody), p.mainBody);
    for i := 0 to |p.order|
      invariant graph.Model() == GenUpTo(p, i)
    {
      if p.order[i] in p.methods {
        visitor.VisitMethod(p.order[i], p.methods[p.order[i]]);
      }
    }
  }
}
