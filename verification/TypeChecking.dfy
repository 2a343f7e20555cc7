/** The type checker (src/semantic/TypeCheckVisitor.cpp:226-760), and what acceptance gives IR generation: a
    program in which every call names a declared method with its number of parameters. */
module TypeChecking {
  import A = Ast
  import opened Names
  import opened Parsing
  import Source

  const ERROR := "<type-error>"

  datatype MethodInfo = MethodInfo(returns_: string, params: seq<string>)

  type Classes = map<string, map<string, MethodInfo>>

  /** What the scopes around an expression declare: variables with their types, classes with their methods,
      and the methods of the class. */
  datatype Env = Env(vars: map<string, string>, classes: Classes, methods: map<string, MethodInfo>)

  /** The inferred type, and how many errors were reported on the way. */
  datatype Checked = Checked(name: string, errors: nat)

  predicate IsError(t: string) {
    t == ERROR
  }

  /** The result type of an operator on operands of types s and t, if there is one. */
  function OperatorType(op: Operator, s: string, t: string): Option<string> {
    if op.Add? || op.Subtract? || op.Multiply? || op.Divide? then if s == "int" && t == "int" then Some("int") else None
    else if op.Less? || op.Greater? then if s == "int" && t == "int" then Some("boolean") else None
    else if op.And? || op.Or? then if s == "boolean" && t == "boolean" then Some("boolean") else None
    else if (s == "boolean" && t == "boolean") || (s == "int" && t == "int") then Some("boolean")
    else None
  }

  /** The result t if c has the wanted type; otherwise the error type, reported unless c is an error already. */
  function Wanted(c: Checked, wanted: string, t: string): Checked {
    if IsError(c.name) then Checked(ERROR, c.errors)
    else if c.name == wanted then Checked(t, c.errors)
    else Checked(ERROR, c.errors + 1)
  }

  function LookUp(env: Env, x: string): Checked {
    if x in env.vars then Checked(env.vars[x], 0)
    else if x in env.classes then Checked(x, 0)
    else if x in env.methods then Checked(env.methods[x].returns_, 0)
    else Checked(ERROR, 1)
  }

  function CheckExpr(env: Env, e: Tree): Checked
    decreases e
  {
    match e
    case Integer(_) => Checked("int", 0)
    case True => Checked("boolean", 0)
    case False => Checked("boolean", 0)
    case Name(x) => LookUp(env, x)
    case This => if "this" in env.vars then Checked(env.vars["this"], 0) else Checked(ERROR, 1)
    case Infix(op, l, r) =>
      var a, b := CheckExpr(env, l), CheckExpr(env, r);
      var n := a.errors + b.errors;
      if IsError(a.name) || IsError(b.name) then Checked(ERROR, n)
      else
        var t := OperatorType(op, a.name, b.name);
        if t.Some? then Checked(t.value, n) else Checked(ERROR, n + 1)
    case Not(r) => Wanted(CheckExpr(env, r), "boolean", "boolean")
    case NewObject(c) => if c in env.classes then Checked(c, 0) else Checked(ERROR, 1)
    case NewArray(length) => Wanted(CheckExpr(env, length), "int", "int[]")
    case Length(arr) => Wanted(CheckExpr(env, arr), "int[]", "int")
    case Index(arr, index) =>
      var a, i := CheckExpr(env, arr), CheckExpr(env, index);
      var n := a.errors + i.errors;
      if IsError(a.name) || IsError(i.name) then Checked(ERROR, n)
      else if i.name != "int" || a.name != "int[]" then Checked(ERROR, n + 1)
      else Checked("int", n)
    case Call(receiver, m, args) =>
      var r := CheckExpr(env, receiver);
      if IsError(r.name) then Checked(ERROR, r.errors)
      else if r.name !in env.classes || m !in env.classes[r.name] then Checked(ERROR, r.errors + 1)
      else
        var info := env.classes[r.name][m];
        var ts := CheckArgs(env, args);
        var (valid, bad) := Mismatches(info.params, ts.0);
        var count := if |info.params| != |args| then 1 else 0;
        Checked(if valid && count == 0 then info.returns_ else ERROR, r.errors + ts.1 + count + bad)
  }

  /** The types of the arguments, and the errors found in them. */
  function CheckArgs(env: Env, args: seq<Tree>): (r: (seq<string>, nat))
    ensures |r.0| == |args|
    decreases args
  {
    if args == [] then ([], 0)
    else
      var c, rest := CheckExpr(env, args[0]), CheckArgs(env, args[1..]);
      ([c.name] + rest.0, c.errors + rest.1)
  }

  /** Whether the arguments fit the parameters as far as both go, and how many mismatches are reported: none for
      an argument that is an error already. */
  function Mismatches(params: seq<string>, ts: seq<string>): (bool, nat) {
    if params == [] || ts == [] then (true, 0)
    else
      var (valid, n) := Mismatches(params[1..], ts[1..]);
      if IsError(ts[0]) then (false, n)
      else if params[0] != ts[0] then (false, n + 1)
      else (valid, n)
  }

  datatype TreeStmt =
    | Declare(typeName: string, x: string)
    | Assign(x: string, e: Tree)
    | ArrayAssign(x: string, index: Tree, e: Tree)
    | Print(e: Tree)
    | If(cond: Tree, thn: TreeStmt)
    | IfElse(cond: Tree, thn: TreeStmt, els: TreeStmt)
    | While(cond: Tree, body: TreeStmt)
    | Block(stmts: seq<TreeStmt>)

  /** Whether a statement is fine, and how many errors were reported in it. */
  datatype Verdict = Verdict(valid: bool, errors: nat)

  function Both(a: Verdict, b: Verdict): Verdict {
    Verdict(a.valid && b.valid, a.errors + b.errors)
  }

  /** An expression used where the type wanted is demanded. */
  function Demand(c: Checked, wanted: string): Verdict {
    if IsError(c.name) then Verdict(false, c.errors)
    else if c.name != wanted then Verdict(false, c.errors + 1)
    else Verdict(true, c.errors)
  }

  predicate KnownType(env: Env, t: string) {
    t == "int" || t == "boolean" || t == "int[]" || t in env.classes
  }

  function CheckStmt(env: Env, s: TreeStmt): Verdict
    decreases s
  {
    match s
    case Declare(t, _) => if KnownType(env, t) then Verdict(true, 0) else Verdict(false, 1)
    case Assign(x, e) =>
      var a, b := LookUp(env, x), CheckExpr(env, e);
      if IsError(a.name) || IsError(b.name) then Verdict(false, a.errors + b.errors)
      else if a.name != b.name then Verdict(false, a.errors + b.errors + 1)
      else Verdict(true, a.errors + b.errors)
    case ArrayAssign(x, index, e) =>
      Both(Both(Demand(CheckExpr(env, index), "int"), Demand(LookUp(env, x), "int[]")), Demand(CheckExpr(env, e), "int"))
    case Print(e) =>
      var c := CheckExpr(env, e);
      Verdict(!IsError(c.name), c.errors)
    case If(c, t) => Both(Demand(CheckExpr(env, c), "boolean"), CheckStmt(env, t))
    case IfElse(c, t, f) => Both(Both(Demand(CheckExpr(env, c), "boolean"), CheckStmt(env, t)), CheckStmt(env, f))
    case While(c, b) => Both(Demand(CheckExpr(env, c), "boolean"), CheckStmt(env, b))
    case Block(ss) => CheckStmts(env, ss)
  }

  function CheckStmts(env: Env, ss: seq<TreeStmt>): Verdict
    decreases ss
  {
    if ss == [] then Verdict(true, 0) else Both(CheckStmt(env, ss[0]), CheckStmts(env, ss[1..]))
  }

  // ----- a visit reports an error iff it returns the error type -----

  /** No declaration uses the name that stands for an error. */
  ghost predicate Declared(env: Env) {
    && (forall x {:trigger env.vars[x]} :: x in env.vars ==> !IsError(env.vars[x]))
    && (forall c {:trigger c in env.classes} :: c in env.classes ==> !IsError(c))
    && (forall c, m {:trigger env.classes[c][m]} :: c in env.classes && m in env.classes[c] ==> !IsError(env.classes[c][m].returns_))
    && (forall m {:trigger env.methods[m]} :: m in env.methods ==> !IsError(env.methods[m].returns_))
  }

  lemma {:induction false} ErrorsExactly(env: Env, e: Tree)
    requires Declared(env)
    ensures CheckExpr(env, e).errors > 0 <==> IsError(CheckExpr(env, e).name)
    decreases e
  {
    match e
    case Infix(_, l, r) => ErrorsExactly(env, l); ErrorsExactly(env, r);
    case Not(r) => ErrorsExactly(env, r);
    case NewArray(r) => ErrorsExactly(env, r);
    case Length(r) => ErrorsExactly(env, r);
    case Index(a, i) => ErrorsExactly(env, a); ErrorsExactly(env, i);
    case Call(r, m, args) =>
      ErrorsExactly(env, r);
      var c := CheckExpr(env, r);
      if !IsError(c.name) && c.name in env.classes && m in env.classes[c.name] {
        var ts := CheckArgs(env, args);
        ArgErrorsExactly(env, args);
        MismatchesExactly(env.classes[c.name][m].params, ts.0);
      }
    case _ =>
  }

  lemma {:induction false} ArgErrorsExactly(env: Env, args: seq<Tree>)
    requires Declared(env)
    ensures CheckArgs(env, args).1 > 0 <==> ERROR in CheckArgs(env, args).0
    decreases args
  {
    if args != [] {
      ErrorsExactly(env, args[0]);
      ArgErrorsExactly(env, args[1..]);
    }
  }

  /** With as many arguments as parameters, none of them an error, they fit iff nothing is reported. */
  lemma {:induction false} MismatchesExactly(params: seq<string>, ts: seq<string>)
    ensures |params| == |ts| && ERROR in ts ==> !Mismatches(params, ts).0
    ensures ERROR !in ts ==> (Mismatches(params, ts).0 <==> Mismatches(params, ts).1 == 0)
    ensures Mismatches(params, ts).0 ==> Mismatches(params, ts).1 == 0
  {
    if params != [] && ts != [] { MismatchesExactly(params[1..], ts[1..]); }
  }

  lemma DemandExactly(c: Checked, wanted: string)
    requires c.errors > 0 <==> IsError(c.name)
    ensures Demand(c, wanted).errors == 0 <==> Demand(c, wanted).valid
  {
  }

  lemma LookUpExactly(env: Env, x: string)
    requires Declared(env)
    ensures LookUp(env, x).errors > 0 <==> IsError(LookUp(env, x).name)
  {
  }

  lemma {:induction false} StmtErrorsExactly(env: Env, s: TreeStmt)
    requires Declared(env)
    ensures CheckStmt(env, s).errors == 0 <==> CheckStmt(env, s).valid
    decreases s
  {
    hide CheckExpr, Demand, Declared, LookUp, IsError, CheckStmts;
    match s
    case Declare(_, _) =>
    case Assign(x, e) =>
      ErrorsExactly(env, e);
      LookUpExactly(env, x);
    case ArrayAssign(x, i, e) =>
      ErrorsExactly(env, i);
      LookUpExactly(env, x);
      ErrorsExactly(env, e);
      DemandExactly(CheckExpr(env, i), "int");
      DemandExactly(LookUp(env, x), "int[]");
      DemandExactly(CheckExpr(env, e), "int");
    case Print(e) => ErrorsExactly(env, e);
    case If(c, t) =>
      ErrorsExactly(env, c);
      DemandExactly(CheckExpr(env, c), "boolean");
      StmtErrorsExactly(env, t);
    case IfElse(c, t, f) =>
      ErrorsExactly(env, c);
      DemandExactly(CheckExpr(env, c), "boolean");
      StmtErrorsExactly(env, t);
      StmtErrorsExactly(env, f);
    case While(c, b) =>
      ErrorsExactly(env, c);
      DemandExactly(CheckExpr(env, c), "boolean");
      StmtErrorsExactly(env, b);
    case Block(ss) => StmtsErrorsExactly(env, ss);
  }

  lemma {:induction false} StmtsErrorsExactly(env: Env, ss: seq<TreeStmt>)
    requires Declared(env)
    ensures CheckStmts(env, ss).errors == 0 <==> CheckStmts(env, ss).valid
    decreases ss
  {
    if ss != [] {
      StmtErrorsExactly(env, ss[0]);
      StmtsErrorsExactly(env, ss[1..]);
    }
  }

  // ----- from checked trees to the input of IR generation -----

  /** std::stoi of a literal. */
  function NumberOf(digits: string): nat {
    if digits == "" then 0
    else
      var d := digits[|digits| - 1];
      10 * NumberOf(digits[..|digits| - 1]) + if '0' <= d <= '9' then d as int - '0' as int else 0
  }

  /** Reading a number back from its decimal form. */
  lemma {:induction false} NumberOfDecimal(n: nat)
    ensures NumberOf(Decimal(n)) == n
  {
    if n >= 10 {
      NumberOfDecimal(n / 10);
      assert Decimal(n)[..|Decimal(n)| - 1] == Decimal(n / 10);
    } else {
      assert Decimal(n)[..0] == "";
    }
  }

  function AstOperator(op: Operator): Option<A.BinaryOp> {
    match op
    case Add => Some(A.Add)
    case Subtract => Some(A.Subtract)
    case Multiply => Some(A.Multiply)
    case Divide => Some(A.Divide)
    case Less => Some(A.LessThan)
    case Greater => Some(A.GreaterThan)
    case Equal => Some(A.EqualTo)
    case And => None
    case Or => None
  }

  /** The tree with each call marked by the type that was remembered for its receiver. */
  function Typed(env: Env, e: Tree): A.Expr
    decreases e
  {
    match e
    case Integer(lexeme) => A.IntLit(NumberOf(lexeme))
    case True => A.BoolLit(true)
    case False => A.BoolLit(false)
    case Name(x) => A.Ident(x)
    case This => A.This
    case Infix(op, l, r) =>
      if op.And? then A.And(Typed(env, l), Typed(env, r))
      else if op.Or? then A.Or(Typed(env, l), Typed(env, r))
      else A.Binary(AstOperator(op).value, Typed(env, l), Typed(env, r))
    case Not(r) => A.Not(Typed(env, r))
    case NewObject(c) => A.NewObject(c)
    case NewArray(length) => A.NewArray(Typed(env, length))
    case Index(a, i) => A.ArrayAccess(Typed(env, a), Typed(env, i))
    case Length(a) => A.ArrayLength(Typed(env, a))
    case Call(r, m, args) => A.Call(Typed(env, r), CheckExpr(env, r).name, m, TypedArgs(env, args))
  }

  function TypedArgs(env: Env, args: seq<Tree>): (r: seq<A.Expr>)
    ensures |r| == |args|
    decreases args
  {
    if args == [] then [] else [Typed(env, args[0])] + TypedArgs(env, args[1..])
  }

  function TypedStmt(env: Env, s: TreeStmt): A.Stmt
    decreases s
  {
    match s
    case Declare(_, _) => A.Block([])
    case Assign(x, e) => A.Assign(x, Typed(env, e))
    case ArrayAssign(x, i, e) => A.ArrayAssign(x, Typed(env, i), Typed(env, e))
    case Print(e) => A.Print(Typed(env, e))
    case If(c, t) => A.If(Typed(env, c), TypedStmt(env, t))
    case IfElse(c, t, f) => A.IfElse(Typed(env, c), TypedStmt(env, t), TypedStmt(env, f))
    case While(c, b) => A.While(Typed(env, c), TypedStmt(env, b))
    case Block(ss) => A.Block(TypedStmts(env, ss))
  }

  function TypedStmts(env: Env, ss: seq<TreeStmt>): seq<A.Stmt>
    decreases ss
  {
    if ss == [] then [] else [TypedStmt(env, ss[0])] + TypedStmts(env, ss[1..])
  }

  /** What the lexer guarantees of identifiers and literals: no leading underscore, not the keyword `main`, and a
      C++ int. */
  predicate Lexed(e: Tree) {
    match e
    case Integer(lexeme) => A.InInt(NumberOf(lexeme))
    case Name(x) => !Generated(x)
    case Infix(_, l, r) => Lexed(l) && Lexed(r)
    case Not(r) => Lexed(r)
    case NewArray(r) => Lexed(r)
    case Index(a, i) => Lexed(a) && Lexed(i)
    case Length(a) => Lexed(a)
    case Call(r, m, args) => m != "main" && Lexed(r) && forall a | a in args :: Lexed(a)
    case _ => true
  }

  predicate LexedStmt(s: TreeStmt) {
    match s
    case Declare(_, _) => true
    case Assign(x, e) => !Generated(x) && x != "this" && Lexed(e)
    case ArrayAssign(x, i, e) => !Generated(x) && Lexed(i) && Lexed(e)
    case Print(e) => Lexed(e)
    case If(c, t) => Lexed(c) && LexedStmt(t)
    case IfElse(c, t, f) => Lexed(c) && LexedStmt(t) && LexedStmt(f)
    case While(c, b) => Lexed(c) && LexedStmt(b)
    case Block(ss) => forall s | s in ss :: LexedStmt(s)
  }

  /** Every declared method but main has been handed to IR generation, with its number of parameters. */
  ghost predicate Generates(classes: Classes, p: A.Program) {
    forall c, m {:trigger classes[c][m]} :: c in classes && m in classes[c] && m != "main" ==>
      RootName(c, m) in p.methods && |p.methods[RootName(c, m)].sig.params| == |classes[c][m].params|
  }

  /** In an accepted expression the receiver of every call has a remembered type whose class declares the
      method, with as many parameters as there are arguments: generation never falls back. */
  lemma {:induction false} AcceptedIsGood(env: Env, p: A.Program, e: Tree)
    requires Declared(env) && Generates(env.classes, p) && Lexed(e) && CheckExpr(env, e).errors == 0
    ensures Source.GoodExpr(p, Typed(env, e))
    decreases e
  {
    hide Declared, Generates, OperatorType;
    match e
    case Infix(op, l, r) =>
      AcceptedIsGood(env, p, l);
      AcceptedIsGood(env, p, r);
      InfixGood(env, p, op, l, r);
    case Not(r) => AcceptedIsGood(env, p, r);
    case NewArray(r) => AcceptedIsGood(env, p, r);
    case Length(r) => AcceptedIsGood(env, p, r);
    case Index(a, i) => AcceptedIsGood(env, p, a); AcceptedIsGood(env, p, i);
    case Call(r, m, args) =>
      AcceptedIsGood(env, p, r);
      AcceptedCall(env, p, e);
      AcceptedArgs(env, p, args);
      CallGood(env, p, r, m, args);
    case _ =>
  }

  lemma CallGood(env: Env, p: A.Program, r: Tree, m: string, args: seq<Tree>)
    requires Source.GoodExpr(p, Typed(env, r)) && forall a :: a in TypedArgs(env, args) ==> Source.GoodExpr(p, a)
    requires var root := RootName(CheckExpr(env, r).name, m); root in p.methods && |p.methods[root].sig.params| == |args|
    ensures Source.GoodExpr(p, Typed(env, Call(r, m, args)))
  {
    hide CheckExpr, TypedArgs;
  }

  lemma InfixGood(env: Env, p: A.Program, op: Operator, l: Tree, r: Tree)
    requires Source.GoodExpr(p, Typed(env, l)) && Source.GoodExpr(p, Typed(env, r))
    ensures Source.GoodExpr(p, Typed(env, Infix(op, l, r)))
  {
    hide CheckExpr, AstOperator;
  }

  lemma AcceptedCall(env: Env, p: A.Program, e: Tree)
    requires Declared(env) && Generates(env.classes, p) && e.Call? && e.methodName != "main" && CheckExpr(env, e).errors == 0
    ensures var c := CheckExpr(env, e.receiver).name;
            && c in env.classes && e.methodName in env.classes[c] && |env.classes[c][e.methodName].params| == |e.args|
            && RootName(c, e.methodName) in p.methods && |p.methods[RootName(c, e.methodName)].sig.params| == |e.args|
    ensures CheckArgs(env, e.args).1 == 0
  {
    ErrorsExactly(env, e);
    ErrorsExactly(env, e.receiver);
    var c := CheckExpr(env, e.receiver).name;
    assert env.classes[c][e.methodName].params == env.classes[c][e.methodName].params;
  }

  lemma {:induction false} AcceptedArgs(env: Env, p: A.Program, args: seq<Tree>)
    requires Declared(env) && Generates(env.classes, p) && CheckArgs(env, args).1 == 0 && forall a | a in args :: Lexed(a)
    ensures forall a :: a in TypedArgs(env, args) ==> Source.GoodExpr(p, a)
    decreases args
  {
    hide Declared, Generates, Lexed, Source.GoodExpr;
    if args != [] {
      AcceptedIsGood(env, p, args[0]);
      AcceptedArgs(env, p, args[1..]);
    }
  }

  lemma DemandKeeps(c: Checked, wanted: string)
    ensures Demand(c, wanted).errors >= c.errors
  {
  }

  /** An accepted statement has no error in its expressions. */
  lemma DemandsMet(env: Env, s: TreeStmt)
    requires CheckStmt(env, s).errors == 0
    ensures s.Assign? || s.ArrayAssign? || s.Print? ==> CheckExpr(env, s.e).errors == 0
    ensures s.ArrayAssign? ==> CheckExpr(env, s.index).errors == 0
    ensures s.If? || s.IfElse? || s.While? ==> CheckExpr(env, s.cond).errors == 0
  {
    hide CheckExpr, Demand, LookUp, CheckStmts;
    if s.ArrayAssign? {
      DemandKeeps(CheckExpr(env, s.index), "int");
      DemandKeeps(CheckExpr(env, s.e), "int");
    } else if s.If? || s.IfElse? || s.While? {
      DemandKeeps(CheckExpr(env, s.cond), "boolean");
    }
  }

  lemma {:induction false} AcceptedStmt(env: Env, p: A.Program, s: TreeStmt)
    requires Declared(env) && Generates(env.classes, p) && LexedStmt(s) && CheckStmt(env, s).errors == 0
    ensures Source.GoodStmt(p, TypedStmt(env, s))
    decreases s
  {
    hide Declared, Generates, Lexed, Source.GoodExpr, CheckExpr, Demand, LookUp, IsError, CheckStmts, Typed, TypedStmts;
    DemandsMet(env, s);
    match s
    case Declare(_, _) =>
    case Assign(_, e) => AcceptedIsGood(env, p, e);
    case ArrayAssign(_, i, e) => AcceptedIsGood(env, p, i); AcceptedIsGood(env, p, e);
    case Print(e) => AcceptedIsGood(env, p, e);
    case Block(ss) => AcceptedStmts(env, p, ss);
    case _ => AcceptedControl(env, p, s);
  }

  /** The statements inside a control statement. */
  function Arms(s: TreeStmt): seq<TreeStmt>
    requires s.If? || s.IfElse? || s.While?
  {
    match s
    case If(_, t) => [t]
    case IfElse(_, t, f) => [t, f]
    case While(_, b) => [b]
  }

  lemma ArmsAccepted(env: Env, s: TreeStmt)
    requires (s.If? || s.IfElse? || s.While?) && LexedStmt(s) && CheckStmt(env, s).errors == 0
    ensures Lexed(s.cond)
    ensures forall i :: 0 <= i < |Arms(s)| ==> Arms(s)[i] < s && LexedStmt(Arms(s)[i]) && CheckStmt(env, Arms(s)[i]).errors == 0
  {
    hide CheckExpr, Lexed, Demand, CheckStmts;
  }

  lemma ArmsGood(env: Env, p: A.Program, s: TreeStmt)
    requires (s.If? || s.IfElse? || s.While?) && Source.GoodExpr(p, Typed(env, s.cond))
    requires forall i :: 0 <= i < |Arms(s)| ==> Source.GoodStmt(p, TypedStmt(env, Arms(s)[i]))
    ensures Source.GoodStmt(p, TypedStmt(env, s))
  {
    hide Source.GoodExpr, Typed, TypedStmts;
    var arms := Arms(s);
    assert Source.GoodStmt(p, TypedStmt(env, arms[0]));
    if s.IfElse? { assert Source.GoodStmt(p, TypedStmt(env, arms[1])); }
  }

  lemma AcceptedControl(env: Env, p: A.Program, s: TreeStmt)
    requires Declared(env) && Generates(env.classes, p) && LexedStmt(s) && CheckStmt(env, s).errors == 0
    requires s.If? || s.IfElse? || s.While?
    ensures Source.GoodStmt(p, TypedStmt(env, s))
    decreases s, 0
  {
    hide Declared, Generates, Lexed, LexedStmt, Source.GoodExpr, Source.GoodStmt, CheckExpr, CheckStmt, Typed, TypedStmt, Arms;
    DemandsMet(env, s);
    ArmsAccepted(env, s);
    AcceptedIsGood(env, p, s.cond);
    forall i | 0 <= i < |Arms(s)|
      ensures Source.GoodStmt(p, TypedStmt(env, Arms(s)[i]))
    {
      AcceptedStmt(env, p, Arms(s)[i]);
    }
    ArmsGood(env, p, s);
  }

  lemma {:induction false} AcceptedStmts(env: Env, p: A.Program, ss: seq<TreeStmt>)
    requires Declared(env) && Generates(env.classes, p) && CheckStmts(env, ss).errors == 0 && forall s | s in ss :: LexedStmt(s)
    ensures forall t :: t in TypedStmts(env, ss) ==> Source.GoodStmt(p, t)
    decreases ss
  {
    hide Declared, Generates, LexedStmt, Source.GoodStmt, CheckStmt;
    if ss != [] {
      AcceptedStmt(env, p, ss[0]);
      AcceptedStmts(env, p, ss[1..]);
    }
  }

  // ----- methods and programs -----

  /** A method with its class, the names of its parameters, and the types of its locals (parameters included) and
      of its class's fields (`this` included). */
  datatype MethodDecl = MethodDecl(className: string, name: string, info: MethodInfo, params: seq<string>,
                                   locals: map<string, string>, fields: map<string, string>,
                                   body: seq<TreeStmt>, result: Tree)

  /** The main class, the variables that the other classes declare, and their methods. */
  datatype Unit = Unit(mainClass: string, mainLocals: map<string, string>, mainFields: map<string, string>,
                       mainBody: seq<TreeStmt>, fieldDecls: seq<TreeStmt>, methods: seq<MethodDecl>)

  function EnvOf(classes: Classes, className: string, locals: map<string, string>, fields: map<string, string>): Env {
    Env(fields + locals, classes, if className in classes then classes[className] else map[])
  }

  function EnvIn(classes: Classes, d: MethodDecl): Env {
    EnvOf(classes, d.className, d.locals, d.fields)
  }

  /** A method's statements and result, and the agreement of the result with the signature. */
  function CheckMethod(classes: Classes, d: MethodDecl): Verdict {
    var env := EnvIn(classes, d);
    var body, r := CheckStmts(env, d.body), CheckExpr(env, d.result);
    var n := body.errors + r.errors;
    if !body.valid || IsError(r.name) then Verdict(false, n)
    else if d.info.returns_ != r.name then Verdict(false, n + 1)
    else Verdict(true, n)
  }

  function CheckMethods(classes: Classes, ds: seq<MethodDecl>): Verdict {
    if ds == [] then Verdict(true, 0) else Both(CheckMethod(classes, ds[0]), CheckMethods(classes, ds[1..]))
  }

  function CheckUnit(classes: Classes, u: Unit): Verdict {
    Both(Both(CheckStmts(EnvOf(classes, u.mainClass, u.mainLocals, u.mainFields), u.mainBody), CheckStmts(Env(map[], classes, map[]), u.fieldDecls)),
         CheckMethods(classes, u.methods))
  }

  function RootOf(d: MethodDecl): string {
    RootName(d.className, d.name)
  }

  function TypedMethod(classes: Classes, d: MethodDecl): A.Method {
    var env := EnvIn(classes, d);
    A.Method(A.Signature(d.params, d.locals.Keys, d.fields.Keys), TypedStmts(env, d.body), Typed(env, d.result))
  }

  function Roots(ds: seq<MethodDecl>): seq<string> {
    seq(|ds|, i requires 0 <= i < |ds| => RootOf(ds[i]))
  }

  function TypedMethods(classes: Classes, ds: seq<MethodDecl>): map<string, A.Method> {
    if ds == [] then map[]
    else TypedMethods(classes, ds[..|ds| - 1])[RootOf(ds[|ds| - 1]) := TypedMethod(classes, ds[|ds| - 1])]
  }

  /** The program that generation gets for a checked unit. */
  function TypedUnit(classes: Classes, u: Unit): A.Program {
    A.Program(RootName(u.mainClass, "main"), A.Signature([], u.mainLocals.Keys, u.mainFields.Keys),
              TypedStmts(EnvOf(classes, u.mainClass, u.mainLocals, u.mainFields), u.mainBody),
              Roots(u.methods), TypedMethods(classes, u.methods))
  }

  predicate LexedMethod(d: MethodDecl) {
    && (forall x :: x in d.params ==> !Generated(x)) && (forall x :: x in d.locals ==> !Generated(x))
    && (forall s :: s in d.body ==> LexedStmt(s)) && Lexed(d.result)
  }

  /** What lexing and the symbol table guarantee of a unit: well-formed names, distinct methods, and class tables
      that list declared methods and main, none of them with the error type. */
  ghost predicate WellDeclared(classes: Classes, u: Unit) {
    && (forall x :: x in u.mainLocals ==> !Generated(x)) && (forall s :: s in u.mainBody ==> LexedStmt(s))
    && '.' !in u.mainClass && (forall d {:trigger d in u.methods} :: d in u.methods ==> '.' !in d.className)
    && Declared(EnvOf(classes, u.mainClass, u.mainLocals, u.mainFields))
    && (forall d {:trigger d in u.methods} :: d in u.methods ==>
          LexedMethod(d) && Declared(EnvIn(classes, d)) && |d.params| == |d.info.params| && RootOf(d) != RootName(u.mainClass, "main"))
    && (forall i, j :: 0 <= i < j < |u.methods| ==> RootOf(u.methods[i]) != RootOf(u.methods[j]))
    && forall c, m {:trigger classes[c][m]} :: c in classes && m in classes[c] && m != "main" ==>
         exists d :: d in u.methods && d.className == c && d.name == m && d.info == classes[c][m]
  }

  lemma {:induction false} TypedMethodsHas(classes: Classes, ds: seq<MethodDecl>)
    requires forall i, j :: 0 <= i < j < |ds| ==> RootOf(ds[i]) != RootOf(ds[j])
    ensures forall i :: 0 <= i < |ds| ==> RootOf(ds[i]) in TypedMethods(classes, ds) && TypedMethods(classes, ds)[RootOf(ds[i])] == TypedMethod(classes, ds[i])
    ensures forall r :: r in TypedMethods(classes, ds) ==> exists i :: 0 <= i < |ds| && RootOf(ds[i]) == r
  {
    hide TypedMethod, RootOf;
    if ds != [] {
      var n := |ds| - 1;
      TypedMethodsHas(classes, ds[..n]);
      forall i | 0 <= i < n
        ensures ds[..n][i] == ds[i]
      {
      }
      forall r | r in TypedMethods(classes, ds)
        ensures exists i :: 0 <= i < |ds| && RootOf(ds[i]) == r
      {
        if r in TypedMethods(classes, ds[..n]) {
          var i :| 0 <= i < n && RootOf(ds[..n][i]) == r;
          assert RootOf(ds[i]) == r;
        } else {
          assert RootOf(ds[n]) == r;
        }
      }
    }
  }

  lemma UnitGenerates(classes: Classes, u: Unit)
    requires WellDeclared(classes, u)
    ensures Generates(classes, TypedUnit(classes, u))
  {
    hide Declared, LexedMethod, LexedStmt, TypedStmts, Typed;
    TypedMethodsHas(classes, u.methods);
    var p := TypedUnit(classes, u);
    forall c, m | c in classes && m in classes[c] && m != "main"
      ensures RootName(c, m) in p.methods && |p.methods[RootName(c, m)].sig.params| == |classes[c][m].params|
    {
      var d :| d in u.methods && d.className == c && d.name == m && d.info == classes[c][m];
      var i :| 0 <= i < |u.methods| && u.methods[i] == d;
      assert RootOf(u.methods[i]) == RootName(c, m);
    }
  }

  lemma {:induction false} MethodsAccepted(classes: Classes, ds: seq<MethodDecl>, i: nat)
    requires CheckMethods(classes, ds).errors == 0 && i < |ds|
    ensures CheckMethod(classes, ds[i]).errors == 0
  {
    hide CheckMethod;
    if i > 0 { MethodsAccepted(classes, ds[1..], i - 1); }
  }

  lemma MethodGood(classes: Classes, p: A.Program, d: MethodDecl)
    requires Declared(EnvIn(classes, d)) && Generates(classes, p) && LexedMethod(d) && CheckMethod(classes, d).errors == 0
    ensures var m := TypedMethod(classes, d);
            && Source.GoodSignature(m.sig) && (forall t | t in m.body :: Source.GoodStmt(p, t)) && Source.GoodExpr(p, m.result)
  {
    hide Declared, Generates, LexedStmt, Lexed, Source.GoodStmt, Source.GoodExpr, CheckStmts, CheckExpr, TypedStmts, Typed;
    AcceptedStmts(EnvIn(classes, d), p, d.body);
    AcceptedIsGood(EnvIn(classes, d), p, d.result);
  }

  lemma RootHasDot(c: string, m: string)
    ensures Source.IsRoot(RootName(c, m))
  {
    assert RootName(c, m)[|c|] == '.';
  }

  lemma UnitMethodGood(classes: Classes, u: Unit, i: nat)
    requires WellDeclared(classes, u) && CheckUnit(classes, u).errors == 0 && i < |u.methods|
    ensures var p, r := TypedUnit(classes, u), RootOf(u.methods[i]);
            && p.order[i] == r && r in p.methods && r != p.mainName && Source.IsRoot(r) && Source.GoodSignature(p.methods[r].sig)
            && (forall t | t in p.methods[r].body :: Source.GoodStmt(p, t)) && Source.GoodExpr(p, p.methods[r].result)
  {
    hide Declared, Generates, LexedStmt, LexedMethod, Source.GoodStmt, Source.GoodExpr, Source.GoodSignature, CheckStmts, CheckMethods, CheckMethod, TypedStmts,
      Typed, TypedMethod, TypedMethods;
    UnitGenerates(classes, u);
    TypedMethodsHas(classes, u.methods);
    assert u.methods[i] in u.methods;
    RootHasDot(u.methods[i].className, u.methods[i].name);
    MethodsAccepted(classes, u.methods, i);
    MethodGood(classes, TypedUnit(classes, u), u.methods[i]);
  }

  lemma UnitMainGood(classes: Classes, u: Unit)
    requires WellDeclared(classes, u) && CheckUnit(classes, u).errors == 0
    ensures var p := TypedUnit(classes, u);
            Source.IsRoot(p.mainName) && Source.GoodSignature(p.mainSig) && forall t | t in p.mainBody :: Source.GoodStmt(p, t)
  {
    hide Declared, Generates, LexedStmt, LexedMethod, Source.GoodStmt, Source.GoodSignature, CheckStmts, CheckMethods, TypedStmts, TypedMethods;
    UnitGenerates(classes, u);
    AcceptedStmts(EnvOf(classes, u.mainClass, u.mainLocals, u.mainFields), TypedUnit(classes, u), u.mainBody);
    MainSignatureGood(u);
    RootHasDot(u.mainClass, "main");
  }

  /** The type checker establishes what the correctness of the compiler needs: a unit it accepts without error
      is a well-formed program. */
  lemma AcceptedUnitIsGood(classes: Classes, u: Unit)
    requires WellDeclared(classes, u) && CheckUnit(classes, u).errors == 0
    ensures Source.GoodProgram(TypedUnit(classes, u))
  {
    hide WellDeclared, CheckUnit, Source.GoodStmt, Source.GoodExpr, Source.GoodSignature, TypedMethod, TypedMethods, TypedStmts, RootOf, Source.IsRoot,
      TypedUnit, Source.GoodProgram;
    var p := TypedUnit(classes, u);
    UnitMainGood(classes, u);
    RootsDistinct(classes, u);
    TypedMethodsHas(classes, u.methods);
    UnitParts(classes, u);
    forall i | 0 <= i < |p.order|
      ensures MethodFine(p, p.order[i])
    {
      UnitMethodGood(classes, u, i);
    }
    forall r | r in p.methods
      ensures r in p.order
    {
      var i :| 0 <= i < |u.methods| && RootOf(u.methods[i]) == r;
      assert p.order[i] == r;
    }
    FineIsGood(p);
  }

  ghost predicate MethodFine(p: A.Program, r: string) {
    && r in p.methods && r != p.mainName && Source.IsRoot(r) && Source.GoodSignature(p.methods[r].sig)
    && (forall t | t in p.methods[r].body :: Source.GoodStmt(p, t)) && Source.GoodExpr(p, p.methods[r].result)
  }

  lemma UnitParts(classes: Classes, u: Unit)
    ensures var p := TypedUnit(classes, u);
            && |p.order| == |u.methods| && (forall i :: 0 <= i < |p.order| ==> p.order[i] == RootOf(u.methods[i]))
            && p.methods == TypedMethods(classes, u.methods) && p.mainSig.params == []
  {
    hide TypedMethods, TypedStmts, RootOf;
  }

  lemma FineIsGood(p: A.Program)
    requires Source.IsRoot(p.mainName) && Source.GoodSignature(p.mainSig) && p.mainSig.params == []
    requires forall t | t in p.mainBody :: Source.GoodStmt(p, t)
    requires forall i :: 0 <= i < |p.order| ==> MethodFine(p, p.order[i])
    requires forall r :: r in p.methods ==> r in p.order
    requires forall i, j :: 0 <= i < j < |p.order| ==> p.order[i] != p.order[j]
    ensures Source.GoodProgram(p)
  {
    hide Source.GoodStmt, Source.GoodExpr, Source.GoodSignature, Source.IsRoot;
    forall r | r in p.order
      ensures MethodFine(p, r)
    {
      var i :| 0 <= i < |p.order| && p.order[i] == r;
    }
  }

  lemma RootsDistinct(classes: Classes, u: Unit)
    requires WellDeclared(classes, u)
    ensures forall i, j :: 0 <= i < j < |u.methods| ==> RootOf(u.methods[i]) != RootOf(u.methods[j])
  {
  }

  lemma MainSignatureGood(u: Unit)
    requires forall x :: x in u.mainLocals ==> !Generated(x)
    ensures Source.GoodSignature(A.Signature([], u.mainLocals.Keys, u.mainFields.Keys))
  {
  }

  // ----- the visitor -----

  class TypeCheckVisitor {
    const classes: Classes
    var env: Env
    var errorCount: nat

    constructor (classes: Classes)
      ensures this.classes == classes && errorCount == 0
    {
      this.classes := classes;
      env := Env(map[], classes, map[]);
      errorCount := 0;
    }

    method Report()
      modifies `errorCount
      ensures errorCount == old(errorCount) + 1
    {
      errorCount := errorCount + 1;
    }

    method VisitIdentifier(x: string) returns (t: string)
      modifies `errorCount
      ensures Checked(t, errorCount) == Checked(LookUp(env, x).name, old(errorCount) + LookUp(env, x).errors)
    {
      if x in env.vars { return env.vars[x]; }
      if x in env.classes { return x; }
      if x in env.methods { return env.methods[x].returns_; }
      Report();
      t := ERROR;
    }

    /** The result type when an operand of type s is what is wanted; a wrong type is reported, an error is not
        reported again. */
    method Require(s: string, wanted: string, result: string) returns (t: string)
      modifies `errorCount
      ensures var w := Wanted(Checked(s, old(errorCount)), wanted, result); t == w.name && errorCount == w.errors
    {
      if !IsError(s) && s == wanted { return result; }
      if !IsError(s) { Report(); }
      t := ERROR;
    }

    method VisitExpr(e: Tree) returns (t: string)
      modifies `errorCount
      ensures t == CheckExpr(env, e).name && errorCount == old(errorCount) + CheckExpr(env, e).errors
      decreases e, 1
    {
      hide LookUp, OperatorType, CheckArgs, Mismatches;
      match e
      case Integer(_) => t := "int";
      case True => t := "boolean";
      case False => t := "boolean";
      case Name(x) => t := VisitIdentifier(x);
      case This =>
        if "this" in env.vars { return env.vars["this"]; }
        Report();
        t := ERROR;
      case Infix(op, l, r) =>
        var a := VisitExpr(l);
        var b := VisitExpr(r);
        if IsError(a) || IsError(b) { return ERROR; }
        var result := OperatorType(op, a, b);
        if result.Some? { return result.value; }
        Report();
        t := ERROR;
      case Not(r) =>
        var a := VisitExpr(r);
        t := Require(a, "boolean", "boolean");
      case NewObject(c) =>
        if c in env.classes { return c; }
        Report();
        t := ERROR;
      case NewArray(length) =>
        var a := VisitExpr(length);
        t := Require(a, "int", "int[]");
      case Length(arr) =>
        var a := VisitExpr(arr);
        t := Require(a, "int[]", "int");
      case Index(arr, index) =>
        var a := VisitExpr(arr);
        var i := VisitExpr(index);
        if IsError(i) || IsError(a) { return ERROR; }
        if i != "int" {
          Report();
          return ERROR;
        }
        if a != "int[]" {
          Report();
          return ERROR;
        }
        t := "int";
      case Call(receiver, m, args) => t := VisitCall(e, receiver, m, args);
    }

    method VisitCall(e: Tree, receiver: Tree, m: string, args: seq<Tree>) returns (t: string)
      requires e == Call(receiver, m, args)
      modifies `errorCount
      ensures t == CheckExpr(env, e).name && errorCount == old(errorCount) + CheckExpr(env, e).errors
      decreases e, 0
    {
      hide LookUp, OperatorType, CheckArgs, Mismatches;
      var c := VisitExpr(receiver);
      if IsError(c) { return ERROR; }
      if c !in env.classes || m !in env.classes[c] {
        Report();
        return ERROR;
      }
      var info := env.classes[c][m];
      var ts := VisitArgs(e, args);
      var valid := true;
      if |info.params| != |ts| {
        Report();
        valid := false;
      }
      var fits := CompareArgs(info.params, ts);
      t := if valid && fits then info.returns_ else ERROR;
    }

    method VisitArgs(e: Tree, args: seq<Tree>) returns (ts: seq<string>)
      requires e.Call? && args == e.args
      modifies `errorCount
      ensures ts == CheckArgs(env, args).0 && errorCount == old(errorCount) + CheckArgs(env, args).1
      decreases e, 0, 0
    {
      hide CheckExpr;
      ts := [];
      for i := 0 to |args|
        invariant ts + CheckArgs(env, args[i..]).0 == CheckArgs(env, args).0
        invariant errorCount + CheckArgs(env, args[i..]).1 == old(errorCount) + CheckArgs(env, args).1
      {
        assert args[i..][1..] == args[i + 1..];
        var t := VisitExpr(args[i]);
        ts := ts + [t];
      }
    }

    /** Argument by argument; the error type is skipped silently. */
    method CompareArgs(params: seq<string>, ts: seq<string>) returns (valid: bool)
      modifies `errorCount
      ensures valid == Mismatches(params, ts).0 && errorCount == old(errorCount) + Mismatches(params, ts).1
    {
      valid := true;
      var i := 0;
      while i < |params| && i < |ts|
        invariant i <= |params| && i <= |ts|
        invariant Mismatches(params, ts).0 == (valid && Mismatches(params[i..], ts[i..]).0)
        invariant old(errorCount) + Mismatches(params, ts).1 == errorCount + Mismatches(params[i..], ts[i..]).1
      {
        assert params[i..][1..] == params[i + 1..] && ts[i..][1..] == ts[i + 1..];
        if IsError(ts[i]) {
          valid := false;
        } else if params[i] != ts[i] {
          Report();
          valid := false;
        }
        i := i + 1;
      }
    }

    /** An expression where the type wanted is demanded. */
    method VisitDemand(t: string, wanted: string) returns (valid: bool)
      modifies `errorCount
      ensures var d := Demand(Checked(t, old(errorCount)), wanted); valid == d.valid && errorCount == d.errors
    {
      valid := true;
      if !IsError(t) && t != wanted {
        Report();
        valid := false;
      } else if IsError(t) {
        valid := false;
      }
    }

    method VisitStmt(s: TreeStmt) returns (valid: bool)
      modifies `errorCount
      ensures valid == CheckStmt(env, s).valid && errorCount == old(errorCount) + CheckStmt(env, s).errors
      decreases s, 1
    {
      hide CheckExpr, LookUp, CheckStmts;
      match s
      case Declare(t, _) =>
        valid := KnownType(env, t);
        if !valid { Report(); }
      case Assign(x, e) =>
        var a := VisitIdentifier(x);
        var b := VisitExpr(e);
        valid := !IsError(a) && !IsError(b);
        if valid && a != b {
          Report();
          valid := false;
        }
      case ArrayAssign(x, index, e) =>
        var i := VisitExpr(index);
        var a := VisitIdentifier(x);
        var r := VisitExpr(e);
        var okIndex := VisitDemand(i, "int");
        var okArray := VisitDemand(a, "int[]");
        var okValue := VisitDemand(r, "int");
        valid := okIndex && okArray && okValue;
      case Print(e) =>
        var t := VisitExpr(e);
        valid := !IsError(t);
      case Block(ss) => valid := VisitStmts(s, ss);
      case _ => valid := VisitControl(s);
    }

    /** The condition, then every statement of an if, if-else or while. */
    method VisitControl(s: TreeStmt) returns (valid: bool)
      requires s.If? || s.IfElse? || s.While?
      modifies `errorCount
      ensures valid == CheckStmt(env, s).valid && errorCount == old(errorCount) + CheckStmt(env, s).errors
      decreases s, 0
    {
      hide CheckExpr, CheckStmts;
      var t := VisitExpr(s.cond);
      valid := VisitDemand(t, "boolean");
      match s
      case If(_, thn) =>
        var a := VisitStmt(thn);
        valid := a && valid;
      case IfElse(_, thn, els) =>
        var a := VisitStmt(thn);
        var b := VisitStmt(els);
        valid := a && b && valid;
      case While(_, body) =>
        var a := VisitStmt(body);
        valid := a && valid;
    }

    method VisitStmts(whole: TreeStmt, ss: seq<TreeStmt>) returns (valid: bool)
      requires whole == Block(ss)
      modifies `errorCount
      ensures valid == CheckStmts(env, ss).valid && errorCount == old(errorCount) + CheckStmts(env, ss).errors
      decreases whole, 0
    {
      hide CheckStmt;
      valid := true;
      for i := 0 to |ss|
        invariant CheckStmts(env, ss).valid == (valid && CheckStmts(env, ss[i..]).valid)
        invariant old(errorCount) + CheckStmts(env, ss).errors == errorCount + CheckStmts(env, ss[i..]).errors
      {
        assert ss[i..][1..] == ss[i + 1..];
        var v := VisitStmt(ss[i]);
        valid := v && valid;
      }
    }

    method VisitMethod(d: MethodDecl) returns (valid: bool)
      modifies this
      ensures valid == CheckMethod(classes, d).valid && errorCount == old(errorCount) + CheckMethod(classes, d).errors
    {
      hide CheckExpr, CheckStmts;
      env := EnvIn(classes, d);
      var body := VisitStmts(Block(d.body), d.body);
      var t := VisitExpr(d.result);
      valid := body && !IsError(t);
      if valid && d.info.returns_ != t {
        Report();
        valid := false;
      }
    }

    /** check_types: the number of errors of a whole unit. */
    method Run(u: Unit) returns (errors: nat)
      requires errorCount == 0
      modifies this
      ensures errors == CheckUnit(classes, u).errors
    {
      hide CheckStmts, CheckMethod;
      env := EnvOf(classes, u.mainClass, u.mainLocals, u.mainFields);
      var valid := VisitStmts(Block(u.mainBody), u.mainBody);
      env := Env(map[], classes, map[]);
      valid := VisitStmts(Block(u.fieldDecls), u.fieldDecls);
      ghost var before := errorCount;
      for i := 0 to |u.methods|
        invariant before + CheckMethods(classes, u.methods).errors == errorCount + CheckMethods(classes, u.methods[i..]).errors
      {
        assert u.methods[i..][1..] == u.methods[i + 1..];
        var v := VisitMethod(u.methods[i]);
      }
      errors := errorCount;
    }
  }
}
