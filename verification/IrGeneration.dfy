/** IR generation as a function of the tree and the graph so far (src/ir/IRGenerationVisitor.cpp). */
module IrGeneration {
  import opened Ast
  import opened Tac
  import opened Names
  import opened FlowGraph

  /** The result temporary and the four blocks of an `&&` or `||`. */
  datatype Arms = Arms(result: string, rhs: string, yes: string, no: string, join: string)

  function NewArms(g: Graph): (Graph, Arms) {
    var (g1, t) := NewTemp(g);
    var (g2, rhs) := NewBlock(g1);
    var (g3, yes) := NewBlock(g2);
    var (g4, no) := NewBlock(g3);
    var (g5, join) := NewBlock(g4);
    (g5, Arms(t, rhs, yes, no, join))
  }

  /** After the left operand: branch on it and continue in the block of the right operand. */
  function OpenShortCircuit(g: Graph, isAnd: bool, a: Operand): (Graph, Arms) {
    var (g1, arms) := NewArms(g);
    var (onTrue, onFalse) := if isAnd then (arms.rhs, arms.no) else (arms.yes, arms.rhs);
    var g2 := AddBranch(g1, a, onTrue, onFalse);
    (MoveTo(SetExits(g2, g1.current, onTrue, onFalse), arms.rhs), arms)
  }

  /** After the right operand: the branch goes into the current block, the exits into the block where the
      right operand started. */
  function CloseRight(g: Graph, b: Operand, arms: Arms): Graph {
    SetExits(AddBranch(g, b, arms.yes, arms.no), arms.rhs, arms.yes, arms.no)
  }

  function GiveResult(g: Graph, value: int, arm: string, arms: Arms): Graph {
    AddJump(AddInstr(MoveTo(g, arm), Copy(Imm(value), arms.result)), arms.join)
  }

  function CloseShortCircuit(g: Graph, b: Operand, arms: Arms): Graph {
    var g1 := CloseRight(g, b, arms);
    var g2 := GiveResult(g1, 1, arms.yes, arms);
    MoveTo(GiveResult(g2, 0, arms.no, arms), arms.join)
  }

  function GenExpr(e: Expr, g: Graph): (Graph, Operand)
    decreases e
  {
    match e
    case IntLit(n) => (g, Imm(n))
    case BoolLit(b) => (g, Imm(if b then 1 else 0))
    case Ident(x) => (g, Name(x))
    case This => (g, Name("this"))
    case Binary(op, l, r) =>
      var (g1, a) := GenExpr(l, g);
      var (g2, b) := GenExpr(r, g1);
      var (g3, t) := NewTemp(g2);
      (AddInstr(g3, Bin(op, t, a, b)), Name(t))
    case Not(r) =>
      var (g1, a) := GenExpr(r, g);
      var (g2, t) := NewTemp(g1);
      (AddInstr(g2, NotTac(t, a)), Name(t))
    case And(l, r) =>
      var (g1, a) := GenExpr(l, g);
      var (g2, arms) := OpenShortCircuit(g1, true, a);
      var (g3, b) := GenExpr(r, g2);
      (CloseShortCircuit(g3, b, arms), Name(arms.result))
    case Or(l, r) =>
      var (g1, a) := GenExpr(l, g);
      var (g2, arms) := OpenShortCircuit(g1, false, a);
      var (g3, b) := GenExpr(r, g2);
      (CloseShortCircuit(g3, b, arms), Name(arms.result))
    case NewObject(c) =>
      var (g1, t) := NewTemp(g);
      (AddInstr(g1, New(t, c)), Name(t))
    case NewArray(length) =>
      var (g1, t) := NewTemp(g);
      var (g2, a) := GenExpr(length, g1);
      (AddInstr(g2, NewArr(t, a)), Name(t))
    case ArrayAccess(arr, index) =>
      var (g1, a) := GenExpr(arr, g);
      var (g2, i) := GenExpr(index, g1);
      var (g3, t) := NewTemp(g2);
      (AddInstr(g3, Access(t, a, i)), Name(t))
    case ArrayLength(arr) =>
      var (g1, t) := NewTemp(g);
      var (g2, a) := GenExpr(arr, g1);
      (AddInstr(g2, Length(t, a)), Name(t))
    case Call(receiver, c, m, args) =>
      var (g1, r) := GenExpr(receiver, g);
      var g2 := GenArgs(args, g1);
      var (g3, t) := NewTemp(g2);
      (AddInstr(g3, Invoke(t, r, RootName(c, m), |args|)), Name(t))
  }

  function GenArgs(args: seq<Expr>, g: Graph): Graph
    decreases args
  {
    if args == [] then g
    else
      var (g1, a) := GenExpr(args[0], g);
      GenArgs(args[1..], AddInstr(g1, Param(a)))
  }

  function GenStmt(s: Stmt, g: Graph): Graph
    decreases s
  {
    match s
    case Assign(x, e) =>
      var (g1, a) := GenExpr(e, g);
      AddInstr(g1, Copy(a, x))
    case ArrayAssign(x, index, e) =>
      var (g1, i) := GenExpr(index, g);
      var (g2, a) := GenExpr(e, g1);
      AddInstr(g2, ArrayCopy(x, i, a))
    case Print(e) =>
      var (g1, a) := GenExpr(e, g);
      AddInstr(g1, PrintTac(a))
    case If(c, thn) =>
      var (g1, yes) := NewBlock(g);
      var (g2, join) := NewBlock(g1);
      var (g3, a) := GenExpr(c, g2);
      var g4 := CloseCondition(g3, a, yes, join);
      var g5 := GenStmt(thn, MoveTo(g4, yes));
      MoveTo(AddJump(g5, join), join)
    case IfElse(c, thn, els) =>
      var (g1, yes) := NewBlock(g);
      var (g2, no) := NewBlock(g1);
      var (g3, join) := NewBlock(g2);
      var (g4, a) := GenExpr(c, g3);
      var g5 := CloseCondition(g4, a, yes, no);
      var g6 := GenStmt(thn, MoveTo(g5, yes));
      var g7 := GenStmt(els, MoveTo(AddJump(g6, join), no));
      MoveTo(AddJump(g7, join), join)
    case While(c, body) =>
      var (g1, loop) := OpenLoop(g);
      var (g2, a) := GenExpr(c, g1);
      var cond := g2.current;
      var g3 := AddBranch(g2, a, loop.body, loop.join);
      var g4 := GenStmt(body, MoveTo(g3, loop.body));
      var g5 := AddJump(g4, loop.header);
      MoveTo(SetExits(g5, cond, loop.body, loop.join), loop.join)
    case Block(ss) => GenStmts(ss, g)
  }

  /** Both exits of the block that holds the condition's branch. */
  function CloseCondition(g: Graph, a: Operand, yes: string, no: string): Graph {
    SetExits(AddBranch(g, a, yes, no), g.current, yes, no)
  }

  datatype Loop = Loop(header: string, body: string, join: string)

  /** The three blocks of a while; the current block jumps to the header, where the condition starts. */
  function OpenLoop(g: Graph): (Graph, Loop) {
    var (g1, header) := NewBlock(g);
    var (g2, body) := NewBlock(g1);
    var g3 := SetTrueExit(g2, body, header);
    var (g4, join) := NewBlock(g3);
    (MoveTo(AddJump(g4, header), header), Loop(header, body, join))
  }

  function GenStmts(ss: seq<Stmt>, g: Graph): Graph
    decreases ss
  {
    if ss == [] then g else GenStmts(ss[1..], GenStmt(ss[0], g))
  }

  /** A method's body and return, from its root. */
  function GenBody(m: Method, g: Graph): Graph {
    var (g1, r) := GenExpr(m.result, GenStmts(m.body, g));
    AddInstr(g1, Return(r))
  }

  function GenMethod(name: string, m: Method, g: Graph): Graph {
    GenBody(m, AddRoot(g, name, m.sig.locals))
  }

  const EMPTY_GRAPH := Graph(map[], "", [], 0, 0, {})

  function GenMain(p: Program): Graph {
    GenStmts(p.mainBody, AddRoot(EMPTY_GRAPH, p.mainName, p.mainSig.locals))
  }

  /** The graph after main and the first n methods. */
  function GenUpTo(p: Program, n: nat): Graph
    requires n <= |p.order|
  {
    if n == 0 then GenMain(p)
    else
      var name := p.order[n - 1];
      var g := GenUpTo(p, n - 1);
      if name in p.methods then GenMethod(name, p.methods[name], g) else g
  }

  function GenProgram(p: Program): Graph {
    GenUpTo(p, |p.order|)
  }

  /** The scope of each method after generation: its own names and its temporaries. */
  function FinalScope(p: Program, n: nat): set<string>
    requires n <= |p.order|
  {
    GenUpTo(p, n).locals
  }
}
