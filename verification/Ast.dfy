/** The abstract syntax handed to IR generation, and the programs made of it. A method call carries the class
    that type checking remembered for its receiver (src/ir/CFG.cpp:106-111). */
module Ast {

  datatype BinaryOp = Add | Subtract | Multiply | Divide | LessThan | GreaterThan | EqualTo

  const INT_MIN := -0x8000_0000
  const INT_MAX := 0x7fff_ffff

  /** The range of a literal, which the parser reads into a C++ int (src/ast/IntegerNode.hpp:14). */
  predicate InInt(n: int) {
    INT_MIN <= n <= INT_MAX
  }

  datatype Expr =
    | IntLit(n: int)
    | BoolLit(b: bool)
    | Ident(x: string)
    | This
    | Binary(op: BinaryOp, lhs: Expr, rhs: Expr)
    | Not(e: Expr)
    | And(lhs: Expr, rhs: Expr)
    | Or(lhs: Expr, rhs: Expr)
    | NewObject(className: string)
    | NewArray(length: Expr)
    | ArrayAccess(arr: Expr, index: Expr)
    | ArrayLength(arr: Expr)
    | Call(receiver: Expr, className: string, methodName: string, args: seq<Expr>)

  datatype Stmt =
    | Assign(x: string, e: Expr)
    | ArrayAssign(x: string, index: Expr, e: Expr)
    | Print(e: Expr)
    | If(cond: Expr, thn: Stmt)
    | IfElse(cond: Expr, thn: Stmt, els: Stmt)
    | While(cond: Expr, body: Stmt)
    | Block(stmts: seq<Stmt>)

  /** What the symbol table knows of a method: parameters in order, the names of its scope, and the names
      of the enclosing class scope. */
  datatype Signature = Signature(params: seq<string>, locals: set<string>, fields: set<string>)

  datatype Method = Method(sig: Signature, body: seq<Stmt>, result: Expr)

  /** The main method and the other methods by their root names, in the order they are visited. */
  datatype Program = Program(mainName: string, mainSig: Signature, mainBody: seq<Stmt>,
                             order: seq<string>, methods: map<string, Method>)

  /** No `&&` or `||` anywhere inside e. */
  predicate PlainOperand(e: Expr) {
    match e
    case IntLit(_) => true
    case BoolLit(_) => true
    case Ident(_) => true
    case This => true
    case Binary(_, l, r) => PlainOperand(l) && PlainOperand(r)
    case Not(x) => PlainOperand(x)
    case And(_, _) => false
    case Or(_, _) => false
    case NewObject(_) => true
    case NewArray(n) => PlainOperand(n)
    case ArrayAccess(a, i) => PlainOperand(a) && PlainOperand(i)
    case ArrayLength(a) => PlainOperand(a)
    case Call(r, _, _, args) => PlainOperand(r) && forall a | a in args :: PlainOperand(a)
  }

  /** No `&&` or `||` inside the right operand of an `&&` or `||` anywhere in e. */
  predicate NoShortCircuitInRightOperand(e: Expr) {
    match e
    case IntLit(_) => true
    case BoolLit(_) => true
    case Ident(_) => true
    case This => true
    case Binary(_, l, r) => NoShortCircuitInRightOperand(l) && NoShortCircuitInRightOperand(r)
    case Not(x) => NoShortCircuitInRightOperand(x)
    case And(l, r) => NoShortCircuitInRightOperand(l) && PlainOperand(r)
    case Or(l, r) => NoShortCircuitInRightOperand(l) && PlainOperand(r)
    case NewObject(_) => true
    case NewArray(n) => NoShortCircuitInRightOperand(n)
    case ArrayAccess(a, i) => NoShortCircuitInRightOperand(a) && NoShortCircuitInRightOperand(i)
    case ArrayLength(a) => NoShortCircuitInRightOperand(a)
    case Call(r, _, _, args) =>
      NoShortCircuitInRightOperand(r) && forall a | a in args :: NoShortCircuitInRightOperand(a)
  }

  predicate NoShortCircuitInRightOperandStmt(s: Stmt) {
    match s
    case Assign(_, e) => NoShortCircuitInRightOperand(e)
    case ArrayAssign(_, i, e) => NoShortCircuitInRightOperand(i) && NoShortCircuitInRightOperand(e)
    case Print(e) => NoShortCircuitInRightOperand(e)
    case If(c, t) => NoShortCircuitInRightOperand(c) && NoShortCircuitInRightOperandStmt(t)
    case IfElse(c, t, f) =>
      NoShortCircuitInRightOperand(c) && NoShortCircuitInRightOperandStmt(t) && NoShortCircuitInRightOperandStmt(f)
    case While(c, b) => NoShortCircuitInRightOperand(c) && NoShortCircuitInRightOperandStmt(b)
    case Block(ss) => forall s | s in ss :: NoShortCircuitInRightOperandStmt(s)
  }
}
