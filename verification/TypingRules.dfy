/** What is well typed, as rules for expressions, statements, methods and units, with no reports and no error type in them;
    and that the type checker accepts exactly that (src/semantic/TypeCheckVisitor.cpp:226-760). */
module TypingRules {
  import opened Parsing
  import opened TypeChecking

  // ----- the rules -----

  /** A name is a variable, else a class, else a method of the class. */
  predicate NameHasType(env: Env, x: string, t: string) {
    || (x in env.vars && env.vars[x] == t)
    || (x !in env.vars && x in env.classes && x == t)
    || (x !in env.vars && x !in env.classes && x in env.methods && env.methods[x].returns_ == t)
  }

  /** The operators by name, with the type of both operands and that of the result. */
  predicate OperatorRule(op: Operator, operands: string, result: string) {
    match op
    case Add => operands == "int" && result == "int"
    case Subtract => operands == "int" && result == "int"
    case Multiply => operands == "int" && result == "int"
    case Divide => operands == "int" && result == "int"
    case Less => operands == "int" && result == "boolean"
    case Greater => operands == "int" && result == "boolean"
    case Equal => (operands == "int" || operands == "boolean") && result == "boolean"
    case And => operands == "boolean" && result == "boolean"
    case Or => operands == "boolean" && result == "boolean"
  }

  /** In env, e has type t. */
  ghost predicate HasType(env: Env, e: Tree, t: string)
    decreases e
  {
    match e
    case Integer(_) => t == "int"
    case True => t == "boolean"
    case False => t == "boolean"
    case Name(x) => NameHasType(env, x, t)
    case This => "this" in env.vars && env.vars["this"] == t
    case Infix(op, l, r) => exists o :: OperatorRule(op, o, t) && HasType(env, l, o) && HasType(env, r, o)
    case Not(r) => t == "boolean" && HasType(env, r, "boolean")
    case NewObject(c) => t == c && c in env.classes
    case NewArray(length) => t == "int[]" && HasType(env, length, "int")
    case Length(arr) => t == "int" && HasType(env, arr, "int[]")
    case Index(arr, index) => t == "int" && HasType(env, arr, "int[]") && HasType(env, index, "int")
    case Call(receiver, m, args) =>
      exists c :: HasType(env, receiver, c) && Takes(env, c, m, |args|) && env.classes[c][m].returns_ == t &&
        forall i :: 0 <= i < |args| ==> HasType(env, args[i], env.classes[c][m].params[i])
  }

  /** Class c declares a method m with n parameters. */
  predicate Takes(env: Env, c: string, m: string, n: nat) {
    c in env.classes && m in env.classes[c] && |env.classes[c][m].params| == n
  }

  ghost predicate Typable(env: Env, e: Tree) {
    exists t :: HasType(env, e, t)
  }

  ghost predicate Valid(env: Env, s: TreeStmt)
    decreases s
  {
    match s
    case Declare(t, _) => t == "int" || t == "boolean" || t == "int[]" || t in env.classes
    case Assign(x, e) => exists t :: NameHasType(env, x, t) && HasType(env, e, t)
    case ArrayAssign(x, index, e) => NameHasType(env, x, "int[]") && HasType(env, index, "int") && HasType(env, e, "int")
    case Print(e) => Typable(env, e)
    case If(c, t) => HasType(env, c, "boolean") && Valid(env, t)
    case IfElse(c, t, f) => HasType(env, c, "boolean") && Valid(env, t) && Valid(env, f)
    case While(c, b) => HasType(env, c, "boolean") && Valid(env, b)
    case Block(ss) => forall i :: 0 <= i < |ss| ==> Valid(env, ss[i])
  }

  /** What a method of a class can name: its locals, the fields that none of them hides, and the methods of the class. */
  ghost predicate Scoped(env: Env, classes: Classes, className: string, locals: map<string, string>, fields: map<string, string>) {
    && env.classes == classes
    && (forall x :: x in env.vars <==> x in locals || x in fields)
    && (forall x :: x in locals ==> env.vars[x] == locals[x])
    && (forall x :: x in fields && x !in locals ==> env.vars[x] == fields[x])
    && (forall m :: m in env.methods <==> className in classes && m in classes[className])
    && (forall m :: m in env.methods ==> env.methods[m] == classes[className][m])
  }

  ghost predicate ValidMethod(classes: Classes, d: MethodDecl) {
    exists env :: Scoped(env, classes, d.className, d.locals, d.fields) && HasType(env, d.result, d.info.returns_) &&
      forall i :: 0 <= i < |d.body| ==> Valid(env, d.body[i])
  }

  ghost predicate ValidMain(classes: Classes, u: Unit) {
    exists env :: Scoped(env, classes, u.mainClass, u.mainLocals, u.mainFields) &&
      forall i :: 0 <= i < |u.mainBody| ==> Valid(env, u.mainBody[i])
  }

  ghost predicate ValidUnit(classes: Classes, u: Unit) {
    && ValidMain(classes, u)
    && (forall i :: 0 <= i < |u.fieldDecls| ==> Valid(Env(map[], classes, map[]), u.fieldDecls[i]))
    && forall i :: 0 <= i < |u.methods| ==> ValidMethod(classes, u.methods[i])
  }

  // ----- expressions -----

  lemma NameExactly(env: Env, x: string, t: string)
    requires Declared(env)
    ensures LookUp(env, x) == Checked(t, 0) <==> NameHasType(env, x, t)
  {
  }

  lemma OperatorExactly(op: Operator, s: string, s': string, t: string)
    ensures OperatorType(op, s, s') == Some(t) <==> s == s' && OperatorRule(op, s, t)
  {
  }

  /** The checker returns t and reports nothing iff the expression has type t. */
  lemma {:induction false} TypedExactly(env: Env, e: Tree, t: string)
    requires Declared(env)
    ensures CheckExpr(env, e) == Checked(t, 0) <==> HasType(env, e, t)
    decreases e, 1
  {
    match e
    case Infix(op, l, r) => InfixExactly(env, op, l, r, t);
    case Call(r, m, args) => CallExactly(env, r, m, args, t);
    case Name(x) => NameExactly(env, x, t);
    case This =>
    case Not(r) => WantedExactly(env, r, "boolean");
    case NewArray(r) => WantedExactly(env, r, "int");
    case Length(r) => WantedExactly(env, r, "int[]");
    case Index(a, i) => IndexExactly(env, a, i, t);
    case _ =>
  }

  lemma WantedExactly(env: Env, e: Tree, wanted: string)
    requires Declared(env)
    ensures CheckExpr(env, e) == Checked(wanted, 0) <==> HasType(env, e, wanted)
    ensures CheckExpr(env, e).errors > 0 <==> IsError(CheckExpr(env, e).name)
    decreases e, 2
  {
    TypedExactly(env, e, wanted);
    ErrorsExactly(env, e);
  }

  lemma IndexExactly(env: Env, a: Tree, i: Tree, t: string)
    requires Declared(env)
    ensures CheckExpr(env, Index(a, i)) == Checked(t, 0) <==> HasType(env, Index(a, i), t)
    decreases Index(a, i), 0
  {
    hide Declared;
    WantedExactly(env, a, "int[]");
    WantedExactly(env, i, "int");
  }

  lemma InfixExactly(env: Env, op: Operator, l: Tree, r: Tree, t: string)
    requires Declared(env)
    ensures CheckExpr(env, Infix(op, l, r)) == Checked(t, 0) <==> HasType(env, Infix(op, l, r), t)
    decreases Infix(op, l, r), 0
  {
    hide Declared, OperatorType, OperatorRule;
    var a, b := CheckExpr(env, l), CheckExpr(env, r);
    WantedExactly(env, l, a.name);
    WantedExactly(env, r, b.name);
    OperatorExactly(op, a.name, b.name, t);
    if HasType(env, Infix(op, l, r), t) {
      var o :| OperatorRule(op, o, t) && HasType(env, l, o) && HasType(env, r, o);
      WantedExactly(env, l, o);
      WantedExactly(env, r, o);
    }
  }

  ghost predicate ArgsFit(env: Env, args: seq<Tree>, params: seq<string>) {
    |args| == |params| && forall i :: 0 <= i < |args| ==> HasType(env, args[i], params[i])
  }

  lemma {:induction false} ArgsExactly(env: Env, args: seq<Tree>, params: seq<string>)
    requires Declared(env) && |args| == |params|
    ensures CheckArgs(env, args).1 == 0 && Mismatches(params, CheckArgs(env, args).0) == (true, 0) <==> ArgsFit(env, args, params)
    decreases args, 3
  {
    hide Declared, CheckExpr, HasType;
    if args != [] {
      TypedExactly(env, args[0], params[0]);
      ErrorsExactly(env, args[0]);
      ArgsExactly(env, args[1..], params[1..]);
      MismatchesExactly(params, CheckArgs(env, args).0);
      ArgsFitSplit(env, args, params);
    }
  }

  lemma ArgsFitSplit(env: Env, args: seq<Tree>, params: seq<string>)
    requires |args| == |params| > 0
    ensures ArgsFit(env, args, params) <==> HasType(env, args[0], params[0]) && ArgsFit(env, args[1..], params[1..])
  {
    hide HasType;
    if HasType(env, args[0], params[0]) && ArgsFit(env, args[1..], params[1..]) {
      forall i | 0 <= i < |args|
        ensures HasType(env, args[i], params[i])
      {
        if i > 0 { assert HasType(env, args[1..][i - 1], params[1..][i - 1]); }
      }
    }
  }

  lemma CallExactly(env: Env, r: Tree, m: string, args: seq<Tree>, t: string)
    requires Declared(env)
    ensures CheckExpr(env, Call(r, m, args)) == Checked(t, 0) <==> HasType(env, Call(r, m, args), t)
    decreases Call(r, m, args), 0
  {
    hide Declared, Mismatches, CheckArgs, CheckExpr, HasType;
    var c := CheckExpr(env, r).name;
    WantedExactly(env, r, c);
    if Takes(env, c, m, |args|) { ArgsExactly(env, args, env.classes[c][m].params); }
    if HasType(env, Call(r, m, args), t) {
      var c' := ReceiverClass(env, r, m, args, t);
      WantedExactly(env, r, c');
      CallChecks(env, r, m, args);
    }
    if CheckExpr(env, Call(r, m, args)) == Checked(t, 0) {
      ErrorsExactly(env, Call(r, m, args));
      CallChecked(env, r, m, args, t);
      CallHasType(env, r, c, m, args);
    }
  }

  ghost predicate CallFits(env: Env, r: Tree, c: string, m: string, args: seq<Tree>, t: string) {
    HasType(env, r, c) && Takes(env, c, m, |args|) && env.classes[c][m].returns_ == t && ArgsFit(env, args, env.classes[c][m].params)
  }

  lemma ReceiverClass(env: Env, r: Tree, m: string, args: seq<Tree>, t: string) returns (c: string)
    requires HasType(env, Call(r, m, args), t)
    ensures CallFits(env, r, c, m, args, t)
  {
    c :| HasType(env, r, c) && Takes(env, c, m, |args|) && env.classes[c][m].returns_ == t &&
      forall i :: 0 <= i < |args| ==> HasType(env, args[i], env.classes[c][m].params[i]);
  }

  lemma CallHasType(env: Env, r: Tree, c: string, m: string, args: seq<Tree>)
    requires HasType(env, r, c) && Takes(env, c, m, |args|) && ArgsFit(env, args, env.classes[c][m].params)
    ensures HasType(env, Call(r, m, args), env.classes[c][m].returns_)
  {
  }

  lemma CallChecks(env: Env, r: Tree, m: string, args: seq<Tree>)
    requires CheckExpr(env, r).errors == 0 && !IsError(CheckExpr(env, r).name) && Takes(env, CheckExpr(env, r).name, m, |args|)
    requires CheckArgs(env, args).1 == 0 && Mismatches(env.classes[CheckExpr(env, r).name][m].params, CheckArgs(env, args).0) == (true, 0)
    ensures CheckExpr(env, Call(r, m, args)) == Checked(env.classes[CheckExpr(env, r).name][m].returns_, 0)
  {
    hide Mismatches, CheckArgs;
  }

  lemma CallIs(env: Env, r: Tree, m: string, args: seq<Tree>)
    ensures var c := CheckExpr(env, r);
            CheckExpr(env, Call(r, m, args)) ==
              if IsError(c.name) then Checked(ERROR, c.errors)
              else if c.name !in env.classes || m !in env.classes[c.name] then Checked(ERROR, c.errors + 1)
              else CallReport(env.classes[c.name][m], |args|, c.errors, CheckArgs(env, args).1, Mismatches(env.classes[c.name][m].params, CheckArgs(env, args).0))
  {
    hide Mismatches, CheckArgs;
  }

  function CallReport(info: MethodInfo, args: nat, before: nat, inArgs: nat, fit: (bool, nat)): Checked {
    var count := if |info.params| != args then 1 else 0;
    Checked(if fit.0 && count == 0 then info.returns_ else ERROR, before + inArgs + count + fit.1)
  }

  lemma CallChecked(env: Env, r: Tree, m: string, args: seq<Tree>, t: string)
    requires CheckExpr(env, Call(r, m, args)) == Checked(t, 0) && !IsError(t)
    ensures CheckExpr(env, r).errors == 0 && Takes(env, CheckExpr(env, r).name, m, |args|)
    ensures CheckArgs(env, args).1 == 0 && Mismatches(env.classes[CheckExpr(env, r).name][m].params, CheckArgs(env, args).0) == (true, 0)
    ensures env.classes[CheckExpr(env, r).name][m].returns_ == t
  {
    hide Mismatches, CheckArgs, CheckExpr;
    CallIs(env, r, m, args);
  }

  // ----- statements -----

  lemma DemandMet(env: Env, e: Tree, wanted: string)
    requires Declared(env)
    ensures Demand(CheckExpr(env, e), wanted) == Verdict(true, 0) <==> HasType(env, e, wanted)
    ensures Demand(CheckExpr(env, e), wanted).errors == 0 ==> Demand(CheckExpr(env, e), wanted).valid
  {
    hide CheckExpr, HasType;
    TypedExactly(env, e, wanted);
    ErrorsExactly(env, e);
  }

  lemma AssignExactly(env: Env, x: string, e: Tree)
    requires Declared(env)
    ensures CheckStmt(env, TypeChecking.Assign(x, e)) == Verdict(true, 0) <==> Valid(env, TypeChecking.Assign(x, e))
  {
    hide CheckExpr, HasType, LookUp, NameHasType;
    var s := TypeChecking.Assign(x, e);
    var t := CheckExpr(env, e).name;
    TypedExactly(env, e, t);
    ErrorsExactly(env, e);
    NameExactly(env, x, t);
    LookUpExactly(env, x);
    if Valid(env, s) {
      var t' :| NameHasType(env, x, t') && HasType(env, e, t');
      TypedExactly(env, e, t');
      NameExactly(env, x, t');
    }
  }

  lemma ArrayAssignExactly(env: Env, x: string, i: Tree, e: Tree)
    requires Declared(env)
    ensures CheckStmt(env, TypeChecking.ArrayAssign(x, i, e)) == Verdict(true, 0) <==> Valid(env, TypeChecking.ArrayAssign(x, i, e))
  {
    hide CheckExpr, HasType, NameHasType;
    DemandMet(env, i, "int");
    DemandMet(env, e, "int");
    NameExactly(env, x, "int[]");
    LookUpExactly(env, x);
  }

  lemma PrintExactly(env: Env, e: Tree)
    requires Declared(env)
    ensures CheckStmt(env, TypeChecking.Print(e)) == Verdict(true, 0) <==> Valid(env, TypeChecking.Print(e))
  {
    hide CheckExpr, HasType;
    var t := CheckExpr(env, e).name;
    TypedExactly(env, e, t);
    ErrorsExactly(env, e);
    if Typable(env, e) {
      var t' :| HasType(env, e, t');
      TypedExactly(env, e, t');
    }
  }

  lemma BothMet(a: Verdict, b: Verdict)
    ensures Both(a, b) == Verdict(true, 0) <==> a == Verdict(true, 0) && b == Verdict(true, 0)
  {
  }

  /** A statement is accepted without a report iff it is valid by the rules. */
  lemma {:induction false} StmtExactly(env: Env, s: TreeStmt)
    requires Declared(env)
    ensures CheckStmt(env, s) == Verdict(true, 0) <==> Valid(env, s)
    decreases s
  {
    hide CheckExpr, HasType, LookUp, NameHasType, Demand, CheckStmts, Declared, Both;
    match s
    case Declare(_, _) =>
    case Assign(x, e) => AssignExactly(env, x, e);
    case ArrayAssign(x, i, e) => ArrayAssignExactly(env, x, i, e);
    case Print(e) => PrintExactly(env, e);
    case If(c, t) =>
      DemandMet(env, c, "boolean");
      StmtExactly(env, t);
      BothMet(Demand(CheckExpr(env, c), "boolean"), CheckStmt(env, t));
    case IfElse(c, t, f) =>
      DemandMet(env, c, "boolean");
      StmtExactly(env, t);
      StmtExactly(env, f);
      BothMet(Demand(CheckExpr(env, c), "boolean"), CheckStmt(env, t));
      BothMet(Both(Demand(CheckExpr(env, c), "boolean"), CheckStmt(env, t)), CheckStmt(env, f));
    case While(c, b) =>
      DemandMet(env, c, "boolean");
      StmtExactly(env, b);
      BothMet(Demand(CheckExpr(env, c), "boolean"), CheckStmt(env, b));
    case Block(ss) => StmtsExactly(env, ss);
  }

  lemma {:induction false} StmtsExactly(env: Env, ss: seq<TreeStmt>)
    requires Declared(env)
    ensures CheckStmts(env, ss) == Verdict(true, 0) <==> forall i :: 0 <= i < |ss| ==> Valid(env, ss[i])
    decreases ss
  {
    hide CheckStmt, Valid, Declared;
    if ss != [] {
      StmtExactly(env, ss[0]);
      StmtsExactly(env, ss[1..]);
      assert forall i :: 0 < i < |ss| ==> ss[i] == ss[1..][i - 1];
      assert forall i :: 0 <= i < |ss| - 1 ==> ss[1..][i] == ss[i + 1];
    }
  }

  // ----- methods and units -----

  lemma OnlyScope(env: Env, classes: Classes, c: string, locals: map<string, string>, fields: map<string, string>)
    ensures Scoped(env, classes, c, locals, fields) <==> env == EnvOf(classes, c, locals, fields)
  {
    var e := EnvOf(classes, c, locals, fields);
    if Scoped(env, classes, c, locals, fields) {
      assert env.vars == e.vars;
      assert env.methods == e.methods;
    }
  }

  /** A method is accepted without a report iff it is valid by the rules. */
  lemma MethodExactly(classes: Classes, d: MethodDecl)
    requires Declared(EnvIn(classes, d))
    ensures CheckMethod(classes, d) == Verdict(true, 0) <==> ValidMethod(classes, d)
    ensures CheckMethod(classes, d).errors == 0 ==> CheckMethod(classes, d).valid
  {
    hide CheckExpr, CheckStmts, HasType, Valid, Declared, Scoped, EnvOf;
    var env := EnvIn(classes, d);
    StmtsExactly(env, d.body);
    StmtsErrorsExactly(env, d.body);
    TypedExactly(env, d.result, d.info.returns_);
    ErrorsExactly(env, d.result);
    OnlyScope(env, classes, d.className, d.locals, d.fields);
    if ValidMethod(classes, d) {
      var env' :| Scoped(env', classes, d.className, d.locals, d.fields) && HasType(env', d.result, d.info.returns_) &&
        forall i :: 0 <= i < |d.body| ==> Valid(env', d.body[i]);
      OnlyScope(env', classes, d.className, d.locals, d.fields);
    }
  }

  lemma MainExactly(classes: Classes, u: Unit)
    requires Declared(EnvOf(classes, u.mainClass, u.mainLocals, u.mainFields))
    ensures CheckStmts(EnvOf(classes, u.mainClass, u.mainLocals, u.mainFields), u.mainBody).errors == 0 <==> ValidMain(classes, u)
  {
    hide CheckStmts, Valid, Declared, Scoped, EnvOf;
    var env := EnvOf(classes, u.mainClass, u.mainLocals, u.mainFields);
    StmtsExactly(env, u.mainBody);
    StmtsErrorsExactly(env, u.mainBody);
    OnlyScope(env, classes, u.mainClass, u.mainLocals, u.mainFields);
    if ValidMain(classes, u) {
      var env' :| Scoped(env', classes, u.mainClass, u.mainLocals, u.mainFields) && forall i :: 0 <= i < |u.mainBody| ==> Valid(env', u.mainBody[i]);
      OnlyScope(env', classes, u.mainClass, u.mainLocals, u.mainFields);
    }
  }

  lemma {:induction false} MethodsExactly(classes: Classes, ds: seq<MethodDecl>)
    requires forall d :: d in ds ==> Declared(EnvIn(classes, d))
    ensures CheckMethods(classes, ds).errors == 0 <==> forall i :: 0 <= i < |ds| ==> ValidMethod(classes, ds[i])
  {
    hide CheckMethod, ValidMethod, Declared;
    if ds != [] {
      MethodExactly(classes, ds[0]);
      MethodsExactly(classes, ds[1..]);
      assert forall i :: 0 < i < |ds| ==> ds[i] == ds[1..][i - 1];
      assert forall i :: 0 <= i < |ds| - 1 ==> ds[1..][i] == ds[i + 1];
    }
  }

  lemma {:induction false} FieldsExactly(classes: Classes, ss: seq<TreeStmt>)
    requires Declared(Env(map[], classes, map[]))
    ensures CheckStmts(Env(map[], classes, map[]), ss).errors == 0 <==> forall i :: 0 <= i < |ss| ==> Valid(Env(map[], classes, map[]), ss[i])
  {
    hide CheckStmts, Valid, Declared;
    StmtsExactly(Env(map[], classes, map[]), ss);
    StmtsErrorsExactly(Env(map[], classes, map[]), ss);
  }

  /** The checker reports nothing in a unit iff the unit is valid by the rules. */
  lemma UnitExactly(classes: Classes, u: Unit)
    requires Declared(EnvOf(classes, u.mainClass, u.mainLocals, u.mainFields))
    requires forall d :: d in u.methods ==> Declared(EnvIn(classes, d))
    ensures CheckUnit(classes, u).errors == 0 <==> ValidUnit(classes, u)
  {
    hide CheckStmts, CheckMethods, Valid, ValidMain, ValidMethod;
    MainExactly(classes, u);
    FieldsDeclared(EnvOf(classes, u.mainClass, u.mainLocals, u.mainFields));
    FieldsExactly(classes, u.fieldDecls);
    MethodsExactly(classes, u.methods);
  }

  lemma FieldsDeclared(env: Env)
    requires Declared(env)
    ensures Declared(Env(map[], env.classes, map[]))
  {
  }

  // ----- how much is reported -----

  function One(b: bool): nat {
    if b then 1 else 0
  }

  /** e has a type, but not the one wanted. */
  ghost predicate Misfit(env: Env, e: Tree, wanted: string) {
    Typable(env, e) && !HasType(env, e, wanted)
  }

  /** How many arguments that have a type do not have that of their parameter. */
  ghost function Misfits(env: Env, args: seq<Tree>, params: seq<string>): nat {
    if args == [] || params == [] then 0 else One(Misfit(env, args[0], params[0])) + Misfits(env, args[1..], params[1..])
  }

  /** A fault is reported once: where the operands have types and the expression has none. Arguments are only looked at
      if the receiver's class has the method; then each misfit counts, and a wrong number of arguments. */
  ghost function Reports(env: Env, e: Tree): nat
    decreases e
  {
    match e
    case Infix(_, l, r) => Reports(env, l) + Reports(env, r) + One(Typable(env, l) && Typable(env, r) && !Typable(env, e))
    case Not(r) => Reports(env, r) + One(Typable(env, r) && !Typable(env, e))
    case NewArray(r) => Reports(env, r) + One(Typable(env, r) && !Typable(env, e))
    case Length(r) => Reports(env, r) + One(Typable(env, r) && !Typable(env, e))
    case Index(a, i) => Reports(env, a) + Reports(env, i) + One(Typable(env, a) && Typable(env, i) && !Typable(env, e))
    case Call(receiver, m, args) =>
      if !Typable(env, receiver) then Reports(env, receiver)
      else if !exists c :: Offers(env, receiver, c, m) then Reports(env, receiver) + 1
      else
        var c :| Offers(env, receiver, c, m);
        Reports(env, receiver) + ArgReports(env, args) + One(!Takes(env, c, m, |args|)) + Misfits(env, args, env.classes[c][m].params)
    case _ => One(!Typable(env, e))
  }

  ghost function ArgReports(env: Env, args: seq<Tree>): nat
    decreases args
  {
    if args == [] then 0 else Reports(env, args[0]) + ArgReports(env, args[1..])
  }

  /** The receiver is of class c, which declares m. */
  ghost predicate Offers(env: Env, receiver: Tree, c: string, m: string) {
    HasType(env, receiver, c) && c in env.classes && m in env.classes[c]
  }

  /** A statement reports what its expressions do, and each of them that has a type other than the one wanted. */
  ghost function StmtReports(env: Env, s: TreeStmt): nat
    decreases s
  {
    match s
    case Declare(_, _) => One(!Valid(env, s))
    case Assign(x, e) => One(!exists t :: NameHasType(env, x, t)) + Reports(env, e) + One((exists t :: NameHasType(env, x, t)) && Typable(env, e) && !Valid(env, s))
    case ArrayAssign(x, i, e) =>
      Wanting(env, i, "int") + One(!NameHasType(env, x, "int[]")) + Wanting(env, e, "int")
    case Print(e) => Reports(env, e)
    case If(c, t) => Wanting(env, c, "boolean") + StmtReports(env, t)
    case IfElse(c, t, f) => Wanting(env, c, "boolean") + StmtReports(env, t) + StmtReports(env, f)
    case While(c, b) => Wanting(env, c, "boolean") + StmtReports(env, b)
    case Block(ss) => AllReports(env, ss)
  }

  ghost function Wanting(env: Env, e: Tree, wanted: string): nat {
    Reports(env, e) + One(Misfit(env, e, wanted))
  }

  ghost function AllReports(env: Env, ss: seq<TreeStmt>): nat
    decreases ss
  {
    if ss == [] then 0 else StmtReports(env, ss[0]) + AllReports(env, ss[1..])
  }

  lemma TypableExactly(env: Env, e: Tree)
    requires Declared(env)
    ensures Typable(env, e) <==> !IsError(CheckExpr(env, e).name)
    ensures Typable(env, e) ==> HasType(env, e, CheckExpr(env, e).name) && CheckExpr(env, e).errors == 0
  {
    hide CheckExpr, HasType;
    var t := CheckExpr(env, e).name;
    TypedExactly(env, e, t);
    ErrorsExactly(env, e);
    if Typable(env, e) {
      var t' :| HasType(env, e, t');
      TypedExactly(env, e, t');
    }
  }

  lemma OneType(env: Env, e: Tree, s: string, t: string)
    requires Declared(env) && HasType(env, e, s) && HasType(env, e, t)
    ensures s == t
  {
    hide CheckExpr, HasType;
    TypedExactly(env, e, s);
    TypedExactly(env, e, t);
  }

  lemma InfixOwn(env: Env, op: Operator, l: Tree, r: Tree)
    ensures var a, b, c := CheckExpr(env, l), CheckExpr(env, r), CheckExpr(env, Infix(op, l, r));
            c.errors == a.errors + b.errors + One(!IsError(a.name) && !IsError(b.name) && IsError(c.name))
  {
  }

  /** The operands of a prefix operator, a length and an array creation. */
  predicate IsUnary(e: Tree) {
    e.Not? || e.NewArray? || e.Length?
  }

  function Operand(e: Tree): Tree
    requires IsUnary(e)
  {
    match e
    case Not(r) => r
    case NewArray(r) => r
    case Length(r) => r
  }

  lemma UnaryOwn(env: Env, e: Tree)
    requires IsUnary(e)
    ensures var a, c := CheckExpr(env, Operand(e)), CheckExpr(env, e); c.errors == a.errors + One(!IsError(a.name) && IsError(c.name))
  {
  }

  lemma IndexOwn(env: Env, l: Tree, r: Tree)
    ensures var a, b, c := CheckExpr(env, l), CheckExpr(env, r), CheckExpr(env, Index(l, r));
            c.errors == a.errors + b.errors + One(!IsError(a.name) && !IsError(b.name) && IsError(c.name))
  {
  }

  lemma LeafOwn(env: Env, e: Tree)
    requires Declared(env) && (e.Integer? || e.True? || e.False? || e.Name? || e.This? || e.NewObject?)
    ensures CheckExpr(env, e).errors == One(IsError(CheckExpr(env, e).name))
  {
  }

  /** The checker makes exactly these reports. */
  lemma {:induction false} ReportsExactly(env: Env, e: Tree)
    requires Declared(env)
    ensures CheckExpr(env, e).errors == Reports(env, e)
    decreases e, 1
  {
    hide Declared, HasType, CheckExpr, IsError, Typable;
    TypableExactly(env, e);
    if e.Infix? {
      ReportsExactly(env, e.lhs);
      ReportsExactly(env, e.rhs);
      TypableExactly(env, e.lhs);
      TypableExactly(env, e.rhs);
      InfixOwn(env, e.op, e.lhs, e.rhs);
    } else if e.Index? {
      ReportsExactly(env, e.arr);
      ReportsExactly(env, e.index);
      TypableExactly(env, e.arr);
      TypableExactly(env, e.index);
      IndexOwn(env, e.arr, e.index);
    } else if IsUnary(e) {
      ReportsExactly(env, Operand(e));
      TypableExactly(env, Operand(e));
      UnaryOwn(env, e);
    } else if e.Call? {
      CallReports(env, e.receiver, e.methodName, e.args);
    } else {
      LeafOwn(env, e);
    }
  }

  lemma CallReports(env: Env, r: Tree, m: string, args: seq<Tree>)
    requires Declared(env)
    ensures CheckExpr(env, Call(r, m, args)).errors == Reports(env, Call(r, m, args))
    decreases Call(r, m, args), 0
  {
    hide Declared, HasType, CheckExpr, CheckArgs, Mismatches, Typable, Misfits;
    ReportsExactly(env, r);
    TypableExactly(env, r);
    CallIs(env, r, m, args);
    var t := CheckExpr(env, r).name;
    if Typable(env, r) && exists c :: Offers(env, r, c, m) {
      var c :| Offers(env, r, c, m);
      OneType(env, r, c, t);
      ArgReportsExactly(env, args);
      MisfitsExactly(env, args, env.classes[t][m].params);
      assert forall c' :: Offers(env, r, c', m) ==> c' == t by {
        forall c' | Offers(env, r, c', m)
          ensures c' == t
        {
          OneType(env, r, c', t);
        }
      }
    } else if Typable(env, r) {
      assert !Offers(env, r, t, m);
    }
  }

  lemma {:induction false} ArgReportsExactly(env: Env, args: seq<Tree>)
    requires Declared(env)
    ensures CheckArgs(env, args).1 == ArgReports(env, args)
    decreases args, 2
  {
    hide Declared, CheckExpr, Reports;
    if args != [] {
      ReportsExactly(env, args[0]);
      ArgReportsExactly(env, args[1..]);
    }
  }

  lemma MisfitExactly(env: Env, e: Tree, wanted: string)
    requires Declared(env)
    ensures Misfit(env, e, wanted) <==> !IsError(CheckExpr(env, e).name) && CheckExpr(env, e).name != wanted
  {
    hide Declared, CheckExpr, HasType, Typable;
    TypableExactly(env, e);
    if Typable(env, e) && HasType(env, e, wanted) { OneType(env, e, wanted, CheckExpr(env, e).name); }
  }

  lemma {:induction false} MisfitsExactly(env: Env, args: seq<Tree>, params: seq<string>)
    requires Declared(env)
    ensures Mismatches(params, CheckArgs(env, args).0).1 == Misfits(env, args, params)
    decreases args
  {
    hide Declared, CheckExpr, Misfit;
    if args != [] && params != [] {
      MisfitExactly(env, args[0], params[0]);
      MisfitsExactly(env, args[1..], params[1..]);
      assert CheckArgs(env, args).0[1..] == CheckArgs(env, args[1..]).0;
    }
  }

  lemma WantingExactly(env: Env, e: Tree, wanted: string)
    requires Declared(env)
    ensures Demand(CheckExpr(env, e), wanted).errors == Wanting(env, e, wanted)
  {
    hide Declared, CheckExpr, Reports, Misfit;
    ReportsExactly(env, e);
    MisfitExactly(env, e, wanted);
  }

  lemma AssignReports(env: Env, x: string, e: Tree)
    requires Declared(env)
    ensures CheckStmt(env, TypeChecking.Assign(x, e)).errors == StmtReports(env, TypeChecking.Assign(x, e))
  {
    hide CheckExpr, HasType, LookUp, NameHasType, Typable, Reports;
    var t := LookUp(env, x).name;
    AssignExactly(env, x, e);
    StmtErrorsExactly(env, TypeChecking.Assign(x, e));
    NameExactly(env, x, t);
    LookUpExactly(env, x);
    TypableExactly(env, e);
    ReportsExactly(env, e);
    NameTyped(env, x);
  }

  lemma NameTyped(env: Env, x: string)
    requires Declared(env)
    ensures (exists t :: NameHasType(env, x, t)) <==> LookUp(env, x).errors == 0
    ensures LookUp(env, x).errors <= 1
  {
    if LookUp(env, x).errors == 0 { assert NameHasType(env, x, LookUp(env, x).name); }
  }

  lemma ArrayAssignReports(env: Env, x: string, i: Tree, e: Tree)
    requires Declared(env)
    ensures CheckStmt(env, TypeChecking.ArrayAssign(x, i, e)).errors == StmtReports(env, TypeChecking.ArrayAssign(x, i, e))
  {
    hide CheckExpr, HasType, Wanting, NameHasType;
    WantingExactly(env, i, "int");
    WantingExactly(env, e, "int");
    NameTyped(env, x);
    NameExactly(env, x, "int[]");
    LookUpExactly(env, x);
  }

  /** In a statement, too. */
  lemma {:induction false} StmtReportsExactly(env: Env, s: TreeStmt)
    requires Declared(env)
    ensures CheckStmt(env, s).errors == StmtReports(env, s)
    decreases s
  {
    hide CheckExpr, HasType, LookUp, NameHasType, Demand, CheckStmts, Declared, Wanting, Reports;
    match s
    case Declare(_, _) =>
    case Assign(x, e) => AssignReports(env, x, e);
    case ArrayAssign(x, i, e) => ArrayAssignReports(env, x, i, e);
    case Print(e) => ReportsExactly(env, e);
    case If(c, t) =>
      WantingExactly(env, c, "boolean");
      StmtReportsExactly(env, t);
    case IfElse(c, t, f) =>
      WantingExactly(env, c, "boolean");
      StmtReportsExactly(env, t);
      StmtReportsExactly(env, f);
    case While(c, b) =>
      WantingExactly(env, c, "boolean");
      StmtReportsExactly(env, b);
    case Block(ss) => AllReportsExactly(env, ss);
  }

  lemma {:induction false} AllReportsExactly(env: Env, ss: seq<TreeStmt>)
    requires Declared(env)
    ensures CheckStmts(env, ss).errors == AllReports(env, ss)
    decreases ss
  {
    hide CheckStmt, StmtReports, Declared;
    if ss != [] {
      StmtReportsExactly(env, ss[0]);
      AllReportsExactly(env, ss[1..]);
    }
  }

  /** A method also reports a result whose type is not the declared one, if the rest of it is valid. */
  ghost function MethodReports(classes: Classes, d: MethodDecl): nat {
    var env := EnvIn(classes, d);
    var valid := forall i :: 0 <= i < |d.body| ==> Valid(env, d.body[i]);
    AllReports(env, d.body) + Reports(env, d.result) + One(valid && Misfit(env, d.result, d.info.returns_))
  }

  lemma MethodReportsExactly(classes: Classes, d: MethodDecl)
    requires Declared(EnvIn(classes, d))
    ensures CheckMethod(classes, d).errors == MethodReports(classes, d)
  {
    hide CheckStmts, CheckExpr, AllReports, Reports, Misfit, Valid, Declared, EnvOf;
    var env := EnvIn(classes, d);
    StmtsExactly(env, d.body);
    StmtsErrorsExactly(env, d.body);
    AllReportsExactly(env, d.body);
    ReportsExactly(env, d.result);
    MisfitExactly(env, d.result, d.info.returns_);
  }

  ghost function MethodsReports(classes: Classes, ds: seq<MethodDecl>): nat {
    if ds == [] then 0 else MethodReports(classes, ds[0]) + MethodsReports(classes, ds[1..])
  }

  lemma {:induction false} MethodsReportsExactly(classes: Classes, ds: seq<MethodDecl>)
    requires forall d :: d in ds ==> Declared(EnvIn(classes, d))
    ensures CheckMethods(classes, ds).errors == MethodsReports(classes, ds)
  {
    hide CheckMethod, MethodReports, Declared;
    if ds != [] {
      MethodReportsExactly(classes, ds[0]);
      MethodsReportsExactly(classes, ds[1..]);
    }
  }

  /** In a unit: those of main, of the declarations and of the methods. */
  lemma UnitReports(classes: Classes, u: Unit)
    requires Declared(EnvOf(classes, u.mainClass, u.mainLocals, u.mainFields))
    requires forall d :: d in u.methods ==> Declared(EnvIn(classes, d))
    ensures CheckUnit(classes, u).errors == AllReports(EnvOf(classes, u.mainClass, u.mainLocals, u.mainFields), u.mainBody) +
              AllReports(Env(map[], classes, map[]), u.fieldDecls) + MethodsReports(classes, u.methods)
  {
    hide CheckStmts, CheckMethods, AllReports, MethodsReports;
    FieldsDeclared(EnvOf(classes, u.mainClass, u.mainLocals, u.mainFields));
    AllReportsExactly(EnvOf(classes, u.mainClass, u.mainLocals, u.mainFields), u.mainBody);
    AllReportsExactly(Env(map[], classes, map[]), u.fieldDecls);
    MethodsReportsExactly(classes, u.methods);
  }

  /** check_types: a fresh visitor over the whole unit. It returns 0 iff the unit is valid by the rules, and otherwise how many
      faults there are to report. */
  method CheckTypes(classes: Classes, u: Unit) returns (errors: nat)
    requires Declared(EnvOf(classes, u.mainClass, u.mainLocals, u.mainFields))
    requires forall d :: d in u.methods ==> Declared(EnvIn(classes, d))
    ensures errors == 0 <==> ValidUnit(classes, u)
    ensures errors == AllReports(EnvOf(classes, u.mainClass, u.mainLocals, u.mainFields), u.mainBody) +
              AllReports(Env(map[], classes, map[]), u.fieldDecls) + MethodsReports(classes, u.methods)
  {
    hide CheckUnit, ValidUnit, Declared, AllReports, MethodsReports;
    var visitor := new TypeCheckVisitor(classes);
    errors := visitor.Run(u);
    UnitExactly(classes, u);
    UnitReports(classes, u);
  }
}
